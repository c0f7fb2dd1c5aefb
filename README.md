# Migoyugo game server — a Dafny model

Migoyugo is a two-player game played on an 8×8 board. Players put stones ("migos") of
their colour on empty cells. A line of more than four stones of one colour is not allowed.
A stone that completes a line of exactly four on one of the four capture axes becomes a
permanent marker ("yugo"). Its rank counts the lines it completed at once: standard,
double, triple or quadruple. The other non-marker stones of those lines are then removed.
Completing a line of four aligned markers ("igo") wins. A player who cannot move ends the
game, and the higher marker score wins.

The server keeps three shared registries:
- the running games, each with its board, clocks and move history;
- a waiting list for matchmaking;
- the room lobbies that two players use to start a private game.

Socket events drive the registries: find a match, move, resign, offer or answer a draw,
create, join, start or leave a room, disconnect, and request or answer a rematch. A
one-second tick job counts down the clock of the player to move.

The project models this core and proves properties of the model:

| file | module | what it models |
|---|---|---|
| `wrappers.dfy` | `Wrappers` | `Option`, which stands for JavaScript's `null` and `undefined` |
| `collections.dfy` | `Collections` | `findIndex`, `splice`, and the insertion order of a JavaScript `Map` |
| `game_logic.dfy` | `GameLogic` | the rule engine of `server/gameLogic.js`. Specification functions work on a value snapshot of the board (`Grid`). Methods work on an `array2<Cell>` with the source's own loops and are proved against those functions. |
| `game_logic_facts.dfy` | `GameLogicFacts` | what the specification functions mean: runs, the shape of reported lines, too-long lines, capture effects, score bounds, occupancy |
| `game.dfy` | `GameRecord` | the game record as a class: its clock (`server/gameTimer.js`) and the move pipeline of `handleMakeMove` |
| `server.dfy` | `GameServer` | the registries as a `Server` class and every socket handler of the core |
| `config.dfy` | `ServerConfig` | the CORS origin list and origin check, signup validation, and the identity given to a connection (`server/index_new.js`) |

Conventions of the model:
- A cell is `Empty` or `Stone(color, isYugo, yugoType)`. A plain stone has rank `Unranked`.
- A player is their socket id, name and user id.
- A handler returns what its messages would carry: the move update, the winner, the new game id or the error. Messages themselves are not modelled.
- `uuidv4()`, `Math.random()`, `Date.now()` and the handle returned by `setInterval` are parameters of the methods that use them.
- A live tick job is recorded in the record's `scheduled` set. One tick is the method `Game.Tick`.
- `Valid()` holds before and after every method:
  - for a game record: an 8×8 board, at most one live job (the one `timerInterval` names), and scores equal to the board's marker score;
  - for the server: the key orders list the keys, every record is valid and filed under its id, no record or board is shared between two ids, and a lobby has a guest exactly when it is not waiting.

## Model

| member | source | states |
|---|---|---|
| Collections.FirstMatch | server/socketHandlers.js:21 | `findIndex`: the index of the first element that passes the test, or the length when none does; the test fails at every earlier index |
| Collections.FirstMatchIs | server/socketHandlers.js:196 | an index with a passing element and no earlier one (or none at all) is the index `findIndex` returns |
| Collections.RemoveAt | server/socketHandlers.js:25 | `splice(i, 1)`: one element shorter; the elements before i are kept and the later ones move down by one |
| Collections.RemoveAtMultiset | server/socketHandlers.js:198 | splicing out entry i removes exactly one occurrence of it and keeps every other element |
| Collections.Append | server/socketHandlers.js:49 | the key order after `Map.set`: a new key goes last, and an existing key keeps its place |
| Collections.Without | server/testAndRematchHandlers.js:181 | the key order after `Map.delete`: exactly the other keys remain, and nothing changes when the key is absent (that they keep their order is WithoutAt) |
| Collections.WithoutAt | server/disconnectHandlers.js:69 | deleting a key that is listed once, at position i, is splicing out position i, so the remaining keys keep their insertion order |
| Collections.WithoutNoDup | server/testAndRematchHandlers.js:181 | deleting a key keeps the order free of duplicates |
| Collections.TracksSet | server/socketHandlers.js:49 | after `set`, the order still lists each key of the map exactly once |
| Collections.TracksDelete | server/disconnectHandlers.js:69 | after `delete`, the order still lists each key of the map exactly once |
| Collections.UpdateThenRemove | server/testAndRematchHandlers.js:178-181 | setting a key and then deleting it leaves the map as deleting alone would |
| ServerConfig.Split | server/index_new.js:38 | `split(',')` gives at least one piece, and no piece contains the separator |
| ServerConfig.SplitJoin | server/index_new.js:38 | splitting loses nothing: joining the pieces with the separator gives back the input |
| ServerConfig.TrimStart | server/index_new.js:38 | the result is a suffix of the input that does not start with white space, and every dropped character is white space |
| ServerConfig.TrimEnd | server/index_new.js:38 | the result is a prefix of the input that does not end with white space, and every dropped character is white space |
| ServerConfig.Trim | server/index_new.js:38 | `trim()` leaves no white space at either end |
| ServerConfig.TrimFixed | server/index_new.js:38 | a string with no white space at either end is its own trim |
| ServerConfig.TrimIdempotent | server/index_new.js:38 | trimming twice is trimming once |
| ServerConfig.TrimSubset | server/index_new.js:38 | trim adds no character, so a trimmed piece of a comma split has no comma |
| ServerConfig.OriginsSetting | server/index_new.js:28 | there is a setting exactly when one of ALLOWED_ORIGINS, FRONTEND_URL and PRODUCTION_FRONTEND_URL is non-empty; the first non-empty one, in that order, is taken |
| ServerConfig.TrimAll | server/index_new.js:38 | the same number of pieces, each one trimmed |
| ServerConfig.DropEmpty | server/index_new.js:38 | `filter(Boolean)`: a string is kept exactly when it is non-empty and in the input |
| ServerConfig.SplitOriginsPieces | server/index_new.js:38 | every listed origin is non-empty, has no white space at either end and has no comma; every piece of the setting whose trim is non-empty is listed trimmed |
| ServerConfig.DefaultOriginsClean | server/index_new.js:29-34 | the four default origins satisfy the same cleanliness condition |
| ServerConfig.ParseCorsOrigins | server/index_new.js:27-40 | the list is never empty and its entries are clean. It is the defaults when no variable is set, the pieces of the setting when there are any, and the defaults when the setting holds only commas and white space |
| ServerConfig.AllowedOriginsFirst | server/index_new.js:28 | a non-empty ALLOWED_ORIGINS decides the list, whatever the other two variables hold |
| ServerConfig.StripSlash | server/index_new.js:49 | `replace(/\/$/, '')` returns the input, or the input minus one final `/` |
| ServerConfig.StripSlashInverse | server/index_new.js:42 | stripping undoes one appended slash and leaves a string without a final slash unchanged |
| ServerConfig.AllowedOrigins | server/index_new.js:42 | the normalised list has the length of the parsed list, and entry i is parsed entry i with one trailing slash stripped |
| ServerConfig.ConfiguredOriginsPass | server/index_new.js:46-51 | every configured origin passes the origin check as written, and also with one trailing slash added when it does not already end in one |
| ServerConfig.OriginRefused | server/index_new.js:74-80 | a non-empty origin is refused exactly when no allowed entry equals its slash-stripped form |
| ServerConfig.OriginSlashInsensitive | server/index_new.js:77-78 | one trailing slash on the request's origin does not change the verdict |
| ServerConfig.ValidEmailMatches | server/index_new.js:99-100 | the direct email check accepts exactly the strings that match `^[^\s@]+@[^\s@]+\.[^\s@]+$`. The pattern is written out as three runs free of white space and `@`, split by an `@` and a later `.` |
| ServerConfig.LookAheadContains | server/index_new.js:111 | on a string of password characters, each `(?=.*[…])` look-ahead means the class occurs somewhere |
| ServerConfig.ValidPasswordMatches | server/index_new.js:111 | the direct password check accepts exactly what the password regex matches, with its four look-aheads written out |
| ServerConfig.CheckSignup | server/index_new.js:94-114 | each error is returned exactly when every earlier check passes and its own fails. The order is: a missing field, the email pattern, the username rule (6-20 characters, a letter first, alphanumeric), the password pattern. No error means all four pass |
| ServerConfig.Decimal | server/index_new.js:317 | a number's decimal form: at least one digit, all digits, no leading zero |
| ServerConfig.DecimalValue | server/index_new.js:317 | reading the digits back gives the number |
| ServerConfig.FourDigits | server/index_new.js:317 | numbers from 1000 to 9999 print as four digits |
| ServerConfig.Identify | server/index_new.js:311-324 | the connection's identity. The guest flag is passed through. A guest is named "Guest" plus four digits whose value is draw+1000. A user with a non-empty username plays under it with the user's id. Anyone else is "Player" plus four digits. A user id is present only in the user branch |
| ServerConfig.GuestIgnoresUser | server/index_new.js:316-318 | the guest flag takes precedence: a guest's identity does not depend on the user data |
| GameLogic.CreateEmptyBoard | server/gameLogic.js:5-7 | a fresh 8×8 array whose every cell is empty |
| GameLogic.CountRun | server/gameLogic.js:32-38 | one counting walk adds the number of consecutive cells of the colour from its start along the direction |
| GameLogic.CountAxis | server/gameLogic.js:29-48 | the count for one direction: 1 plus both runs of the colour, ahead and behind |
| GameLogic.WouldCreateLineTooLong | server/gameLogic.js:19-56 | true exactly when one of the eight directions counts more than four (with LineTooLongIff: five aligned cells of the colour around the target) |
| GameLogic.IsValidMove | server/gameLogic.js:11-17 | true exactly when the cell is on the board, is empty and the move makes no line too long |
| GameLogic.LinePush | server/gameLogic.js:75 | `line.push` of the next cell ahead extends the line by one at its positive end |
| GameLogic.LineUnshift | server/gameLogic.js:85 | `line.unshift` of the next cell behind extends the line by one at its negative end |
| GameLogic.CellFits | server/gameLogic.js:73-74 | a walk goes on exactly when the cell is on the board and holds a stone of the colour (a marker, for the igo walks) |
| GameLogic.PushRun | server/gameLogic.js:69-78 | after the forward walk, the line is the target followed by the run ahead of it |
| GameLogic.UnshiftCell | server/gameLogic.js:85-87 | one backward step prepends the cell, moves one step back and says whether the walk goes on |
| GameLogic.UnshiftRun | server/gameLogic.js:81-88 | after the backward walk, the run behind the target is prepended to the line |
| GameLogic.CollectAxis | server/gameLogic.js:69-88 | the collected line is the axis line: the run behind, the target and the run ahead, from the negative end to the positive end |
| GameLogic.CheckForYugos | server/gameLogic.js:58-96 | the result is the lines of exactly four on the four capture axes, in axis order (their shape: YugoLinesShape) |
| GameLogic.RemovedStep | server/gameLogic.js:107-110 | visiting one more line cell records it exactly when it is not the placed cell, holds a non-marker stone and was not removed before |
| GameLogic.ClearCell | server/gameLogic.js:107-112 | one visited cell: the removed list and the board follow the removal function |
| GameLogic.ClearLine | server/gameLogic.js:106-113 | one capture line: the removed list and the board follow the removal function |
| GameLogic.ProcessYugos | server/gameLogic.js:98-123 | with no lines: no rank, nothing removed, board unchanged. Otherwise: the rank for the number of lines, the removed cells are the removal function of the lines' cells, and exactly those cells are emptied |
| GameLogic.CheckForIgo | server/gameLogic.js:125-161 | the result is the first direction's marker line of exactly four through the target, or none (its shape: IgoLineShape) |
| GameLogic.HasLegalMoves | server/gameLogic.js:163-172 | true exactly when some cell of the board is a valid move for the colour |
| GameLogic.CountYugos | server/gameLogic.js:174-207 | the colour's score: the sum of its markers' rank values (standard 1, double 2, triple 3, quadruple 4, otherwise 1) |
| GameLogicFacts.RunAtLeast | server/gameLogic.js:33-38 | a walk counts at least n cells exactly when the first n cells it visits are on the board and match |
| GameLogicFacts.RunExact | server/gameLogic.js:33-38 | the counted cells all match, and the cell after them does not |
| GameLogicFacts.RunIs | server/gameLogic.js:33-38 | n matching cells followed by one that does not match is what the walk counts |
| GameLogicFacts.WalksAre | server/gameLogic.js:69-88 | walk lengths whose cells match, with a non-matching cell after each, are the two runs |
| GameLogicFacts.LineStraight | server/gameLogic.js:69-88 | consecutive cells of a collected line are one step of the direction apart |
| GameLogicFacts.LineIsRunLine | server/gameLogic.js:69-88 | the line of two walks that stop at the first non-matching cell contains the target, is straight and ordered, matches outside the target, and cannot be extended at either end |
| GameLogicFacts.RunLineIsLine | server/gameLogic.js:69-88 | conversely, any such maximal line is the line of two walks through the target |
| GameLogicFacts.AxisLineIff | server/gameLogic.js:69-88 | a sequence is the collected line exactly when it is the maximal straight run through the target, ordered from negative end to positive end |
| GameLogicFacts.WindowIff | server/gameLogic.js:52 | a count above four means exactly that some window of five cells through the target matches outside the target |
| GameLogicFacts.LineTooLongIff | server/gameLogic.js:19-56 | a move makes a line too long exactly when, in some direction, five aligned cells through the target all hold the colour's stones (markers included) outside the target |
| GameLogicFacts.AxisLinesDiffer | server/gameLogic.js:58-96 | lines of two or more cells collected in different directions differ |
| GameLogicFacts.YugoLinesUpToShape | server/gameLogic.js:68-93 | after n axes: at most n lines, each of four cells and collected on one of those axes; every four-cell axis line appears; no line twice |
| GameLogicFacts.YugoLinesShape | server/gameLogic.js:58-96 | at most four lines. Each has exactly four cells and is the maximal run through the target on one capture axis, from the negative end to the positive end. Every such line is reported, and none twice |
| GameLogicFacts.YugoLinesInBounds | server/gameLogic.js:73 | the reported lines lie on the board when the target does |
| GameLogicFacts.IgoLineShape | server/gameLogic.js:125-161 | no result exactly when no direction counts exactly four markers (the target not required to be one). A result is a four-cell maximal marker line through the target in the first direction that counts four |
| GameLogicFacts.RemovedMembers | server/gameLogic.js:105-113 | the removed cells are exactly the line cells other than the placed one that hold a non-marker stone, each listed once |
| GameLogicFacts.CaptureEffect | server/gameLogic.js:105-113 | after the capture a cell is empty if it was such a cell, and is otherwise unchanged |
| GameLogicFacts.CaptureKeeps | server/gameLogic.js:107-109 | the capture never clears a marker or the placed cell |
| GameLogicFacts.ScoreBound | server/gameLogic.js:174-207 | a score is at most 256 (64 cells of value at most 4) |
| GameLogicFacts.ScoreZero | server/gameLogic.js:174-207 | a score is zero exactly when the colour has no marker; the empty board scores zero |
| GameLogicFacts.ScorePlace | server/socketHandlers.js:125-128 | replacing a cell by one of equal value for a colour keeps that colour's score |
| GameLogicFacts.PlaceOccupied | server/socketHandlers.js:117 | a stone on an empty cell adds exactly that cell to the occupied ones |
| GameLogicFacts.ReplaceOccupied | server/socketHandlers.js:125 | turning a stone into a marker keeps the occupied cells |
| GameLogicFacts.ClearOccupied | server/gameLogic.js:111 | emptying distinct occupied cells removes exactly those cells from the occupied ones |
| GameLogicFacts.MoveOccupancy | server/socketHandlers.js:117-125 | after placing and capturing, the number of occupied cells is one more than before, less the removed cells |
| GameRecord.ByColor.Set | server/gameTimer.js:62 | setting one colour's entry leaves the other colour's entry unchanged |
| GameRecord.ByScore | server/socketHandlers.js:147-151 | the winner of a blocked game: a draw exactly when the scores are equal, white exactly when white's is higher |
| GameRecord.PlayedStone | server/socketHandlers.js:117-125 | after a move the target holds a plain stone when no line completed, and otherwise a marker ranked by the number of lines |
| GameRecord.PlayedElsewhere | server/socketHandlers.js:120-121 | after a move every other cell is empty if it lies on a completed line and held a non-marker stone, and is otherwise unchanged |
| GameRecord.PlayedOccupancy | server/socketHandlers.js:117-125 | a move changes the number of occupied cells by exactly 1 minus the number of removed cells |
| GameRecord.PlayedScoreUnchanged | server/socketHandlers.js:124-129 | a move that completes no line leaves both scores as they were, so skipping the recount is sound |
| GameRecord.SetCell | server/socketHandlers.js:117 | writing one cell changes exactly that cell of the board |
| GameRecord.Game.ColorOf | server/socketHandlers.js:111 | the caller is white exactly when their id is white's; every other caller counts as black |
| GameRecord.Game.constructor | server/socketHandlers.js:28-47 | a new record: empty board, white to move, active, no history, scores 0/0, both clocks at minutesPerPlayer×60, no handle, no rematch request |
| GameRecord.Game.StartTimer | server/gameTimer.js:3-45 | nothing when the timer is disabled. Otherwise the old job is cleared and the new handle becomes the only live job, with lastMoveTime set to now |
| GameRecord.Game.StopTimer | server/gameTimer.js:47-54 | no live job and no handle afterwards; nothing else changes, so stopping twice is stopping once |
| GameRecord.Game.AddIncrement | server/gameTimer.js:57-65 | nothing when the timer is disabled or the increment is 0; otherwise only the clock of the colour not to move gains the increment |
| GameRecord.Game.Tick | server/gameTimer.js:14-42 | for a game that is not active: the job ends and the clocks are unchanged. Otherwise only the mover's clock loses one second, and at 0 or below the game finishes, the job ends and the other colour wins on time |
| GameRecord.Game.PlaceAndCapture | server/socketHandlers.js:116-129 | the board becomes the played board; the capture lines, the rank and the removed cells are reported; the scores equal both colours' marker scores |
| GameRecord.Game.Conclude | server/socketHandlers.js:131-155 | an igo finishes the game with the mover's win and no turn change. Otherwise the turn passes, and if the next player has no legal move the game finishes with the score winner or a draw |
| GameRecord.Game.RecordMove | server/socketHandlers.js:157-169 | one history entry and the last move are recorded, the increment is added, and the clock is stopped when the game is over or restarted otherwise |
| GameRecord.Game.Perform | server/socketHandlers.js:116-169 | an accepted move: the update equals the move result, the board equals the played board, and the record equals AfterMove of its old state |
| GameRecord.Game.MakeMove | server/socketHandlers.js:109-169 | a move is accepted exactly when the game is active, it is the caller's turn and the move is valid. A refused move changes nothing; an accepted one behaves as Perform |
| GameServer.Upper | server/roomHandlers.js:46 | `toUpperCase`: the same length, each letter a-z upper-cased and every other character kept |
| GameServer.UpperIdempotent | server/roomHandlers.js:46 | upper-casing twice is upper-casing once |
| GameServer.DequeueEffect | server/socketHandlers.js:196-199 | the list is unchanged exactly when no entry has the caller's id; otherwise the first such entry goes and exactly one occurrence is removed |
| GameServer.CloseValid | server/roomHandlers.js:208 | deleting a lobby keeps the lobby invariant |
| GameServer.ReplaceValid | server/roomHandlers.js:69-75 | replacing a filed lobby by a valid one keeps the lobby invariant |
| GameServer.LeaveValid | server/roomHandlers.js:202-216 | leaving a lobby keeps the lobby invariant |
| GameServer.LeaveOthers | server/roomHandlers.js:202-216 | leaving touches at most the named lobby, and leaving a lobby one is not in changes nothing |
| GameServer.LeaveIdempotent | server/roomHandlers.js:196-216 | leaving twice is leaving once |
| GameServer.FirstLeaveEffect | server/disconnectHandlers.js:16-34 | no lobby is found exactly when the caller is in none, and then nothing changes; a lobby found is one the caller is in |
| GameServer.Server.constructor | server/index_new.js:302-304 | empty registries, and the invariant holds |
| GameServer.Server.StartServerTimer | server/gameTimer.js:3-45 | startServerTimer by id: nothing for a missing game, otherwise Game.StartTimer |
| GameServer.Server.StopServerTimer | server/gameTimer.js:47-54 | stopServerTimer by id: nothing for a missing game, otherwise Game.StopTimer |
| GameServer.Server.AddTimeIncrement | server/gameTimer.js:57-65 | addTimeIncrement by id: nothing for a missing game, otherwise Game.AddIncrement |
| GameServer.Server.FileGame | server/socketHandlers.js:49 | `games.set`: the record is filed under its id and its id is appended to the key order |
| GameServer.Server.DeleteGame | server/testAndRematchHandlers.js:181 | `games.delete`: the id and its record leave the registry and the key order |
| GameServer.Server.Launch | server/socketHandlers.js:28-95 | a new game record is filed under the id and its clock is started |
| GameServer.Server.FindMatch | server/socketHandlers.js:7-102 | the first waiting entry of the caller's category is removed and becomes white against the caller as black, in a new standard game (10 minutes, no increment, whatever the client sent). With no such entry the caller is appended to the list |
| GameServer.Server.MakeMove | server/socketHandlers.js:106-190 | nothing for a missing game. Otherwise accepted exactly when the game is active, it is the caller's turn and the move is valid, with the result and the new state of Game.MakeMove; a refused move changes nothing |
| GameServer.Server.CancelMatchmaking | server/socketHandlers.js:194-200 | the caller's first waiting entry is removed, if there is one; nothing else changes |
| GameServer.Server.RequestTimerSync | server/socketHandlers.js:204-217 | for an existing game, a reply with its clocks and the colour to move; nothing changes |
| GameServer.Server.Resign | server/socketHandlers.js:221-236 | whatever the status, the game is finished and its clock stopped, and the colour opposite the resigner wins |
| GameServer.Server.DrawOffer | server/drawHandlers.js:5-21 | a notice exactly when the game exists and is active, addressed to the caller's opponent and naming the caller's colour and name; nothing changes |
| GameServer.Server.DrawAccept | server/drawHandlers.js:24-39 | exactly an active game is ended, finished and with its clock stopped, with no pending offer needed; a second accept does nothing |
| GameServer.Server.DrawDecline | server/drawHandlers.js:42-54 | a notice to the caller's opponent exactly when the game exists and is active; nothing changes |
| GameServer.Server.DeleteRoom | server/roomHandlers.js:208 | `rooms.delete`: the lobby and its code leave the registry |
| GameServer.Server.CreateRoom | server/roomHandlers.js:7-40 | the first generated code that is not already taken is used, and exactly one waiting lobby is added under it and appended to the room order, with the caller as host and no guest or game |
| GameServer.Server.JoinRoom | server/roomHandlers.js:44-89 | under the upper-cased code, refusals in order: not found, not waiting, own room; a refusal changes nothing. A join makes the caller the guest and the lobby ready, and leaves the host as it was |
| GameServer.Server.StartRoomGame | server/roomHandlers.js:92-191 | refused unless the lobby exists and is ready, then unless the caller hosts it; a refusal changes nothing. Otherwise a new standard game is filed, host white and guest black, with the room code, and its clock started; the lobby stays, started and naming the game |
| GameServer.Server.Vacate | server/roomHandlers.js:196-216 | the caller leaves the lobby: the host's leaving deletes it, the guest's leaving reopens it without a guest, anyone else changes nothing |
| GameServer.Server.LeaveRoom | server/roomHandlers.js:194-218 | handleLeaveRoom: the lobby registry changes as Vacate says and nothing else changes |
| GameServer.Server.DropRoom | server/disconnectHandlers.js:16-34 | only the first lobby, in insertion order, that the caller is in is left, as Vacate says |
| GameServer.Server.FindCallerGame | server/disconnectHandlers.js:37-38 | the position, in insertion order, of the first game the caller plays in |
| GameServer.Server.EndRecord | server/disconnectHandlers.js:43-51 | the disconnect time is set only when the game was active; the game is finished and its clock stopped |
| GameServer.Server.Forfeit | server/disconnectHandlers.js:38-70 | the other colour wins, the record is ended as EndRecord says, the lobby it came from is deleted exactly when its room code is present and non-empty (an empty code is falsy, so that lobby stays), and the game leaves the registry |
| GameServer.Server.DropGame | server/disconnectHandlers.js:37-72 | no game is affected when the caller plays in none; otherwise only the first one, in insertion order, is forfeited as Forfeit says, its lobby deleted only for a non-empty room code |
| GameServer.Server.Disconnect | server/disconnectHandlers.js:5-73 | the caller's first waiting entry is removed, the first lobby they are in is left, and the first game they play in is forfeited and removed, together with its lobby when its room code is non-empty |
| GameServer.Server.RequestRematch | server/testAndRematchHandlers.js:61-132 | a notice exactly when the game exists, is finished and the opponent's socket is live. Then the caller's colour is added to the rematch requests and the other flag is left alone; otherwise nothing changes |
| GameServer.Server.RematchElsewhere | server/testAndRematchHandlers.js:145-228 | an accepted rematch under a new id: a new game with the old settings is filed and started, and the old id is removed |
| GameServer.Server.RematchInPlace | server/testAndRematchHandlers.js:178-181 | an accepted rematch whose new id equals the old one: removing the old id removes the new game too |
| GameServer.Server.RespondToRematch | server/testAndRematchHandlers.js:135-240 | nothing for a missing or unfinished game. Accepting needs no pending request: a new game, the caller's opponent white and the caller black, with the old timer settings, is filed under the new id and the old id is removed (so a new id equal to the old one leaves no game). Declining removes only the opponent's flag and keeps the old game |

## Left out

- Socket.IO messages (`emit`, `join`, `leave`) and `console.log` output are not modelled; handlers return the content of their messages instead.
- handleTestConnection is diagnostic logging and messages only, so it is not modelled.
- The HTTP routes other than the signup input checks are not part of this model: database, authentication, JWT, admin pages and `server.listen`.
- CheckSignup: the asynchronous duplicate-email and duplicate-username lookups after the input checks need the database, which is not part of this model.
- Real scheduling is not modelled. `setInterval` and `clearInterval` become the `scheduled` set and a supplied handle. A tick is the explicit method `Game.Tick`, run only for a live job. `Date.now()` is the `now` parameter.
- The timerUpdate and gameEnd payloads of a tick are not modelled beyond the winner on time.
- `uuidv4()` ids are parameters. `Math.random()` in names is the `draw` parameter of Identify. `Math.random()` room codes are the `codes` sequence of CreateRoom.
- GameServer.Server.CreateRoom: the generated codes are a given sequence, and the method requires that it holds one free code. The source loops until the random generator yields one, which cannot be bounded. A code is any string, the empty one included. The format of a code is not modelled: the source upper-cases `Math.random().toString(36).substring(2, 8)`, which has at most six characters and fewer when the base-36 expansion is short (`0.5` gives `I`, `0` gives the empty code that the disconnect handler treats as no room).
- GameServer.Server.JoinRoom: the 'Room is full' refusal is left out of the body. Under the lobby invariant a waiting lobby never has a guest, so the branch cannot run. The contract states that the result is never RoomFull.
- GameServer.Upper: only a-z are upper-cased. JavaScript's full Unicode `toUpperCase` is not modelled.
- GameServer.Server.RespondToRematch: the fallback to default timer settings cannot happen, because every record the handlers create has timer settings, so it is not modelled.
- GameServer.Server.RematchElsewhere starts the new game's clock before it deletes the old id, while the source deletes first. The deletion does not touch the new record, so the final state is the same.
- GameServer.Server.StartRoomGame uses the shared Launch, so the clock is started right after the record is filed. The room update and the messages in between do not touch the record.
- The player records inside a game hold no socket object; sockets are identified by id, and "the opponent's socket is live" is the `live` set given to RequestRematch.
- `rematchRequests` is a set of colours rather than an object of flags. It exists empty from creation, where the source creates it lazily on the first request.
- GameLogic.ProcessYugos requires the lines to lie on the board. A cell off the board would make the source throw; the only caller passes lines from checkForYugos, which are on the board.
- White space for `trim()` and the regex `\s` is written out as the ECMAScript WhiteSpace and LineTerminator characters. The regular expressions themselves are written out as predicates, with a proof that each matches exactly what the direct check accepts.
- Move coordinates are integers and signup fields are strings in the model, because the source takes them from client JSON without a type check. It does otherwise:
  - a fractional `row` or `col` passes the bounds test and then throws when the board is indexed;
  - a numeric string passes the bounds test, but `row + dr` then concatenates, so every walk stops at once, the line-length rule is skipped, and a move making five in a row is accepted;
  - a non-string signup field is converted to a string by `RegExp.test`.
- The user id of a connection is an optional string. The source passes the handshake's `id` through unchecked.
- A record's `players.*.socket`, the moveUpdate `board`, `timers` and `timestamp` fields, and the gameStart payloads are not modelled, beyond what the handlers return.

## Where the code and its design description differ

The model follows the code in each case:
- Accepting a rematch needs no pending request, and a failed rematch or move returns silently without a reason.
- Declining a rematch removes only the opponent's flag, not all flags.
- There is no clock correction on reconnection: handleRequestTimerSync only replies.
- The move increment goes to the colour not to move after the move. When an igo ends the game, that is the loser, because the turn does not pass.
- A disconnect forfeits the first game the caller plays in, whatever its status, not only an active one.
