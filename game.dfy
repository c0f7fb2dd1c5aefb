/**
 * A game record (the objects stored in the server's `games` map) with its clock
 * (server/gameTimer.js) and the move pipeline of handleMakeMove
 * (server/socketHandlers.js:106-169).
 *
 * The record's fields are the source's; the socket objects inside `players` are left
 * out, a player is its socket id, its name and its user id. `setInterval` returns a
 * handle, which the caller supplies; `scheduled` holds the handles whose tick job is
 * live for this record, and a tick is the explicit method Tick. `Date.now()` is the
 * parameter `now`.
 */
module GameRecord {
  import opened Wrappers
  import opened GameLogic
  import opened GameLogicFacts

  type SocketId = string
  type GameId = string
  type RoomCode = string
  /** An interval handle returned by setInterval. */
  type Handle = nat

  datatype Player = Player(id: SocketId, name: string, userId: Option<string>)

  datatype Status = Active | Finished

  datatype TimerSettings = TimerSettings(timerEnabled: bool, minutesPerPlayer: int, incrementSeconds: int)

  /** The settings every online and room game is created with (socketHandlers.js:12-16, roomHandlers.js:109-113). */
  const StandardTimer := TimerSettings(true, 10, 0)

  /** A `{white, black}` record: the scores and the clocks. */
  datatype ByColor = ByColor(white: int, black: int)
  {
    function Get(c: Color): int
    {
      if c == White then white else black
    }

    function Set(c: Color, v: int): (r: ByColor)
      ensures r.Get(c) == v && r.Get(Other(c)) == Get(Other(c))
    {
      if c == White then this.(white := v) else this.(black := v)
    }
  }

  /** An entry of moveHistory. */
  datatype Move = Move(row: int, col: int, player: Color, yugos: nat)

  datatype LastMove = LastMove(row: int, col: int, player: Color)

  /** The `winner` of a gameEnd or moveUpdate message: a colour or 'draw'. */
  datatype Winner = Wins(color: Color) | Draw

  /** The game-relevant part of the moveUpdate message (socketHandlers.js:172-187). */
  datatype MoveUpdate = MoveUpdate(
    row: int, col: int, player: Color, yugos: nat, yugoType: Option<Rank>, removedCells: seq<Pos>,
    gameOver: bool, winner: Option<Winner>, igo: Option<seq<Pos>>)

  /** The mutable fields of a game record, as one value. */
  datatype State = State(
    currentPlayer: Color, gameStatus: Status, moveHistory: seq<Move>, scores: ByColor,
    lastMove: Option<LastMove>, timers: ByColor, timerInterval: Option<Handle>, scheduled: set<Handle>,
    lastMoveTime: int, playerDisconnectTime: Option<int>, rematchRequests: set<Color>)

  // ---------------------------------------------------------------- one accepted move, on values

  /** The board once the mover's plain stone is on p (socketHandlers.js:117). */
  function Placed(g: Grid, p: Pos, color: Color): Grid
    requires IsGrid(g) && InBounds(p)
  {
    Place(g, p, Stone(color, false, Unranked))
  }

  /** The capture lines the placed stone completes (socketHandlers.js:120). */
  function CaptureLines(g: Grid, p: Pos, color: Color): seq<seq<Pos>>
    requires IsGrid(g) && InBounds(p)
  {
    YugoLines(Placed(g, p, color), p, color)
  }

  /** The cells the capture empties, in removal order (socketHandlers.js:121). */
  function Captured(g: Grid, p: Pos, color: Color): seq<Pos>
    requires IsGrid(g) && InBounds(p)
  {
    YugoLinesInBounds(Placed(g, p, color), p, color);
    FlattenInBounds(CaptureLines(g, p, color));
    Removed(Placed(g, p, color), Flatten(CaptureLines(g, p, color)), p)
  }

  /** The board after an accepted move on p (socketHandlers.js:116-126). */
  function Played(g: Grid, p: Pos, color: Color): (h: Grid)
    requires IsGrid(g) && InBounds(p)
    ensures IsGrid(h)
  {
    var ls := CaptureLines(g, p, color);
    var cleared := ClearCells(Placed(g, p, color), Captured(g, p, color));
    if ls == [] then cleared else Place(cleared, p, Stone(color, true, RankFor(|ls|)))
  }

  /** The winner when the next player cannot move: more marker points wins (socketHandlers.js:146-150). */
  function ByScore(white: int, black: int): (w: Winner)
    ensures w == Draw <==> white == black
    ensures w == Wins(White) <==> white > black
  {
    if white > black then Wins(White) else if black > white then Wins(Black) else Draw
  }

  /** The moveUpdate message of an accepted move by `color` on p of board g (socketHandlers.js:130-155). */
  ghost function MoveResult(g: Grid, p: Pos, color: Color): MoveUpdate
    requires IsGrid(g) && InBounds(p)
  {
    var ls := CaptureLines(g, p, color);
    var h := Played(g, p, color);
    var igo := IgoLine(h, p, color);
    var stuck := igo.None? && !HasLegalMove(h, Other(color));
    MoveUpdate(p.row, p.col, color, |ls|, if ls == [] then None else Some(RankFor(|ls|)), Captured(g, p, color),
      igo.Some? || stuck,
      if igo.Some? then Some(Wins(color)) else if stuck then Some(ByScore(Score(h, White), Score(h, Black))) else None,
      igo)
  }

  /**
   * The record's fields after an accepted move of color at p on board g
   * (socketHandlers.js:117-165): the turn passes unless an igo ended the game, the
   * history, scores and last move are updated, the mover's opponent-to-be gets the
   * increment, and the tick restarts with job h at now; a finished game stops it.
   */
  ghost function AfterMove(s: State, g: Grid, p: Pos, color: Color, settings: TimerSettings, h: Handle, now: int): State
    requires IsGrid(g) && InBounds(p)
  {
    var r := MoveResult(g, p, color);
    var next := if r.igo.Some? then color else Other(color);
    var b := Played(g, p, color);
    s.(
      currentPlayer := next,
      gameStatus := if r.gameOver then Finished else s.gameStatus,
      moveHistory := s.moveHistory + [Move(p.row, p.col, color, r.yugos)],
      scores := ByColor(Score(b, White), Score(b, Black)),
      lastMove := Some(LastMove(p.row, p.col, color)),
      timers := if !settings.timerEnabled || settings.incrementSeconds == 0 then s.timers
        else s.timers.Set(Other(next), s.timers.Get(Other(next)) + settings.incrementSeconds),
      timerInterval := if r.gameOver then None else if settings.timerEnabled then Some(h) else s.timerInterval,
      scheduled := if r.gameOver then {} else if settings.timerEnabled then {h} else s.scheduled,
      lastMoveTime := if !r.gameOver && settings.timerEnabled then now else s.lastMoveTime)
  }

  /**
   * The moved-to cell ends up holding the mover's stone, a marker ranked by the number of
   * lines exactly when some line was completed.
   */
  lemma PlayedStone(g: Grid, p: Pos, color: Color)
    requires IsGrid(g) && InBounds(p)
    ensures var ls := CaptureLines(g, p, color);
      At(Played(g, p, color), p) == if ls == [] then Stone(color, false, Unranked) else Stone(color, true, RankFor(|ls|))
  {
    var ls := CaptureLines(g, p, color);
    YugoLinesInBounds(Placed(g, p, color), p, color);
    FlattenInBounds(ls);
    CaptureKeeps(Placed(g, p, color), Flatten(ls), p);
  }

  /**
   * Away from p, a move empties exactly the plain stones of the completed lines;
   * markers and every other cell keep their contents.
   */
  lemma PlayedElsewhere(g: Grid, p: Pos, color: Color)
    requires IsGrid(g) && InBounds(p)
    ensures var cells := Flatten(CaptureLines(g, p, color));
      var h := Played(g, p, color);
      forall r, c :: 0 <= r < 8 && 0 <= c < 8 && Pos(r, c) != p ==>
        h[r][c] == if Pos(r, c) in cells && Clearable(g[r][c]) then Empty else g[r][c]
  {
    var ls := CaptureLines(g, p, color);
    YugoLinesInBounds(Placed(g, p, color), p, color);
    FlattenInBounds(ls);
    CaptureEffect(Placed(g, p, color), Flatten(ls), p);
  }

  /** A move onto an empty cell changes the number of occupied cells by 1 - |removedCells|. */
  lemma PlayedOccupancy(g: Grid, p: Pos, color: Color)
    requires IsGrid(g) && InBounds(p) && At(g, p) == Empty
    ensures |Occupied(Played(g, p, color))| == |Occupied(g)| + 1 - |Captured(g, p, color)|
  {
    var ls := CaptureLines(g, p, color);
    var x := Stone(color, false, Unranked);
    YugoLinesInBounds(Placed(g, p, color), p, color);
    FlattenInBounds(ls);
    MoveOccupancy(g, p, x, Flatten(ls));
    if ls != [] {
      var cleared := ClearCells(Placed(g, p, color), Captured(g, p, color));
      CaptureKeeps(Placed(g, p, color), Flatten(ls), p);
      ReplaceOccupied(cleared, p, Stone(color, true, RankFor(|ls|)));
    }
  }

  /** A move that completes no line leaves both scores as they were. */
  lemma PlayedScoreUnchanged(g: Grid, p: Pos, color: Color, who: Color)
    requires IsGrid(g) && InBounds(p) && At(g, p) == Empty && CaptureLines(g, p, color) == []
    ensures Score(Played(g, p, color), who) == Score(g, who)
  {
    var g1 := Placed(g, p, color);
    assert Captured(g, p, color) == [];
    GridExt(ClearCells(g1, []), g1);
    ScorePlace(g, p, Stone(color, false, Unranked), who);
  }

  /** Writes one cell of the board array. */
  method SetCell(b: array2<Cell>, p: Pos, x: Cell)
    requires b.Length0 == 8 && b.Length1 == 8 && InBounds(p)
    modifies b
    ensures Snapshot(b) == Place(old(Snapshot(b)), p, x)
  {
    ghost var g := Snapshot(b);
    b[p.row, p.col] := x;
    GridExt(Snapshot(b), Place(g, p, x));
  }

  /** countYugos read straight off the array: the value of the first n cells of row r. */
  function ArrayRowScore(b: array2<Cell>, color: Color, r: nat, n: nat): nat
    requires b.Length0 == 8 && b.Length1 == 8 && r < 8 && n <= 8
    reads b
  {
    if n == 0 then 0 else ArrayRowScore(b, color, r, n - 1) + CellValue(b[r, n - 1], color)
  }

  /** countYugos read straight off the array: the value of the first n rows. */
  function ArrayScore(b: array2<Cell>, color: Color, n: nat): nat
    requires b.Length0 == 8 && b.Length1 == 8 && n <= 8
    reads b
  {
    if n == 0 then 0 else ArrayScore(b, color, n - 1) + ArrayRowScore(b, color, n - 1, 8)
  }

  lemma {:induction false} ArrayRowScoreIs(b: array2<Cell>, color: Color, r: nat, n: nat)
    requires b.Length0 == 8 && b.Length1 == 8 && r < 8 && n <= 8
    ensures ArrayRowScore(b, color, r, n) == RowScore(Snapshot(b)[r], color, n)
  {
    if n > 0 {
      ArrayRowScoreIs(b, color, r, n - 1);
    }
  }

  lemma {:induction false} ArrayRowsScoreIs(b: array2<Cell>, color: Color, n: nat)
    requires b.Length0 == 8 && b.Length1 == 8 && n <= 8
    ensures ArrayScore(b, color, n) == RowsScore(Snapshot(b), color, n)
  {
    if n > 0 {
      ArrayRowsScoreIs(b, color, n - 1);
      ArrayRowScoreIs(b, color, n - 1, 8);
    }
  }

  /** The array reading agrees with the score of the board's snapshot. */
  lemma ArrayScoreIs(b: array2<Cell>, color: Color)
    requires b.Length0 == 8 && b.Length1 == 8
    ensures ArrayScore(b, color, 8) == Score(Snapshot(b), color)
  {
    ArrayRowsScoreIs(b, color, 8);
  }

  // ---------------------------------------------------------------- the record

  class Game {
    const id: GameId
    const white: Player
    const black: Player
    const board: array2<Cell>
    const timerSettings: TimerSettings
    /** The lobby the game was started from, if any (roomHandlers.js:134). */
    const roomCode: Option<RoomCode>
    var currentPlayer: Color
    var gameStatus: Status
    var moveHistory: seq<Move>
    var scores: ByColor
    var lastMove: Option<LastMove>
    var timers: ByColor
    var timerInterval: Option<Handle>
    /** The handles whose tick job is live for this record. */
    var scheduled: set<Handle>
    var lastMoveTime: int
    var playerDisconnectTime: Option<int>
    /** The colours whose rematchRequests flag is set. */
    var rematchRequests: set<Color>

    /**
     * The record's invariant: an 8x8 board, at most one live tick job, which is the
     * one timerInterval names, and scores that are countYugos of the board.
     */
    ghost predicate Valid()
      reads this, board
    {
      && board.Length0 == 8 && board.Length1 == 8
      && (scheduled == {} || (timerInterval.Some? && scheduled == {timerInterval.value}))
      && scores == ByColor(ArrayScore(board, White, 8), ArrayScore(board, Black, 8))
    }

    function Current(): State
      reads this
    {
      State(currentPlayer, gameStatus, moveHistory, scores, lastMove, timers, timerInterval, scheduled,
        lastMoveTime, playerDisconnectTime, rematchRequests)
    }

    /** The caller's colour: white when it is white's socket, black for anyone else. */
    function ColorOf(caller: SocketId): (c: Color)
      ensures c == White <==> caller == white.id
    {
      if white.id == caller then White else Black
    }

    /** The caller sits at this game, as either colour. */
    predicate Plays(caller: SocketId)
    {
      white.id == caller || black.id == caller
    }

    function Of(c: Color): Player
    {
      if c == White then white else black
    }

    /** A new game: empty board, white to move, both clocks at minutesPerPlayer*60. */
    constructor (id: GameId, white: Player, black: Player, settings: TimerSettings, roomCode: Option<RoomCode>, now: int)
      ensures Valid() && fresh(board)
      ensures this.id == id && this.white == white && this.black == black
      ensures timerSettings == settings && this.roomCode == roomCode
      ensures Snapshot(board) == EmptyGrid()
      ensures Current() == State(White, Active, [], ByColor(0, 0), None,
        ByColor(settings.minutesPerPlayer * 60, settings.minutesPerPlayer * 60), None, {}, now, None, {})
    {
      this.id := id;
      this.white := white;
      this.black := black;
      var b := CreateEmptyBoard();
      board := b;
      timerSettings := settings;
      this.roomCode := roomCode;
      currentPlayer := White;
      gameStatus := Active;
      moveHistory := [];
      scores := ByColor(0, 0);
      lastMove := None;
      timers := ByColor(settings.minutesPerPlayer * 60, settings.minutesPerPlayer * 60);
      timerInterval := None;
      scheduled := {};
      lastMoveTime := now;
      playerDisconnectTime := None;
      rematchRequests := {};
      new;
      ScoreZero(EmptyGrid(), White);
      ScoreZero(EmptyGrid(), Black);
      ArrayScoreIs(board, White);
      ArrayScoreIs(board, Black);
    }

    /**
     * startServerTimer on this record (gameTimer.js:3-45): nothing when the timer is
     * disabled; otherwise the old job is cleared and a new one, h, is the only live one.
     */
    method StartTimer(h: Handle, now: int)
      requires Valid()
      modifies this
      ensures Valid()
      ensures Current() == if !timerSettings.timerEnabled then old(Current())
        else old(Current()).(timerInterval := Some(h), scheduled := {h}, lastMoveTime := now)
    {
      if !timerSettings.timerEnabled {
        return;
      }
      if timerInterval.Some? {
        scheduled := scheduled - {timerInterval.value};
      }
      scheduled := scheduled + {h};
      timerInterval := Some(h);
      lastMoveTime := now;
    }

    /** stopServerTimer on this record (gameTimer.js:47-54): no job is live and the handle is null. */
    method StopTimer()
      requires Valid()
      modifies this
      ensures Valid()
      ensures Current() == old(Current()).(timerInterval := None, scheduled := {})
    {
      if timerInterval.Some? {
        scheduled := scheduled - {timerInterval.value};
        timerInterval := None;
      }
    }

    /**
     * addTimeIncrement on this record (gameTimer.js:57-65): the increment goes to the
     * colour opposite currentPlayer, and nothing happens when the timer is disabled or
     * the increment is 0.
     */
    method AddIncrement()
      requires Valid()
      modifies this
      ensures Valid()
      ensures Current() == if !timerSettings.timerEnabled || timerSettings.incrementSeconds == 0 then old(Current())
        else old(Current()).(timers := old(timers).Set(Other(currentPlayer), old(timers).Get(Other(currentPlayer)) + timerSettings.incrementSeconds))
    {
      if !timerSettings.timerEnabled || timerSettings.incrementSeconds == 0 {
        return;
      }
      var c := Other(currentPlayer);
      timers := timers.Set(c, timers.Get(c) + timerSettings.incrementSeconds);
    }

    /**
     * One run of the tick job h (gameTimer.js:14-42). On a game that is not active the job
     * clears itself (the handle stays set) and nothing else changes. Otherwise the mover's
     * clock loses one second; at zero or below the game is finished, the job is cleared,
     * and the other colour is reported as the winner.
     */
    method Tick(h: Handle) returns (timeout: Option<Color>)
      requires Valid() && h in scheduled
      modifies this
      ensures Valid()
      ensures old(gameStatus) != Active ==> Current() == old(Current()).(scheduled := {}) && timeout == None
      ensures old(gameStatus) == Active ==>
        var c := old(currentPlayer);
        var left := old(timers).Get(c) - 1;
        && timers == old(timers).Set(c, left)
        && (left <= 0 ==> Current() == old(Current()).(timers := timers, gameStatus := Finished, scheduled := {})
                          && timeout == Some(Other(c)))
        && (left > 0 ==> Current() == old(Current()).(timers := timers) && timeout == None)
    {
      if gameStatus != Active {
        if timerInterval.Some? {
          scheduled := scheduled - {timerInterval.value};
        }
        return None;
      }
      var c := currentPlayer;
      timers := timers.Set(c, timers.Get(c) - 1);
      timeout := None;
      if timers.Get(c) <= 0 {
        timeout := Some(Other(c));
        gameStatus := Finished;
        if timerInterval.Some? {
          scheduled := scheduled - {timerInterval.value};
        }
      }
    }

    /**
     * Places the mover's stone, processes the captures and, when a line was completed,
     * makes the stone a marker and recounts both scores (socketHandlers.js:116-129).
     */
    method PlaceAndCapture(row: int, col: int, color: Color)
      returns (yugos: seq<seq<Pos>>, yugoType: Option<Rank>, removed: seq<Pos>)
      requires Valid() && InBounds(Pos(row, col)) && Snapshot(board)[row][col] == Empty
      modifies this, board
      ensures Valid()
      ensures var g := old(Snapshot(board)); var p := Pos(row, col);
        && Snapshot(board) == Played(g, p, color)
        && yugos == CaptureLines(g, p, color)
        && removed == Captured(g, p, color)
        && yugoType == (if yugos == [] then None else Some(RankFor(|yugos|)))
      ensures scores == ByColor(Score(Snapshot(board), White), Score(Snapshot(board), Black))
      ensures Current() == old(Current()).(scores := scores)
    {
      ghost var g := Snapshot(board);
      ArrayScoreIs(board, White);
      ArrayScoreIs(board, Black);
      var p := Pos(row, col);
      SetCell(board, p, Stone(color, false, Unranked));
      yugos := CheckForYugos(board, row, col, color);
      YugoLinesInBounds(Snapshot(board), p, color);
      yugoType, removed := ProcessYugos(board, yugos, row, col);
      if yugoType.Some? {
        SetCell(board, p, Stone(color, true, yugoType.value));
        var w := CountYugos(board, White);
        var b := CountYugos(board, Black);
        scores := ByColor(w, b);
      } else {
        PlayedScoreUnchanged(g, p, color, White);
        PlayedScoreUnchanged(g, p, color, Black);
      }
      ArrayScoreIs(board, White);
      ArrayScoreIs(board, Black);
    }

    /**
     * The outcome of a move (socketHandlers.js:130-155): an igo finishes the game with the
     * mover as winner and the mover still to move; otherwise the turn passes, and a next
     * player without a legal move finishes the game, won on marker points.
     */
    method Conclude(row: int, col: int, color: Color) returns (igo: Option<seq<Pos>>, gameOver: bool, winner: Option<Winner>)
      requires Valid() && currentPlayer == color
      modifies this
      ensures Valid()
      ensures var b := Snapshot(board);
        && igo == IgoLine(b, Pos(row, col), color)
        && gameOver == (igo.Some? || !HasLegalMove(b, Other(color)))
        && winner == (if igo.Some? then Some(Wins(color))
                      else if gameOver then Some(ByScore(Score(b, White), Score(b, Black))) else None)
        && Current() == old(Current()).(
             currentPlayer := if igo.Some? then color else Other(color),
             gameStatus := if gameOver then Finished else old(gameStatus))
    {
      igo := CheckForIgo(board, row, col, color);
      gameOver := false;
      winner := None;
      if igo.Some? {
        gameOver := true;
        winner := Some(Wins(color));
        gameStatus := Finished;
      } else {
        currentPlayer := Other(currentPlayer);
        var any := HasLegalMoves(board, currentPlayer);
        if !any {
          gameOver := true;
          var whiteYugos := CountYugos(board, White);
          var blackYugos := CountYugos(board, Black);
          winner := Some(ByScore(whiteYugos, blackYugos));
          gameStatus := Finished;
        }
      }
    }

    /** The bookkeeping after a move (socketHandlers.js:157-169): lastMove, history, increment, clock. */
    method RecordMove(row: int, col: int, color: Color, yugos: nat, gameOver: bool, h: Handle, now: int)
      requires Valid()
      modifies this
      ensures Valid()
      ensures var next := old(currentPlayer);
        && Current() == old(Current()).(
             moveHistory := old(moveHistory) + [Move(row, col, color, yugos)],
             lastMove := Some(LastMove(row, col, color)),
             timers := if !timerSettings.timerEnabled || timerSettings.incrementSeconds == 0 then old(timers)
               else old(timers).Set(Other(next), old(timers).Get(Other(next)) + timerSettings.incrementSeconds),
             timerInterval := if gameOver then None else if timerSettings.timerEnabled then Some(h) else old(timerInterval),
             scheduled := if gameOver then {} else if timerSettings.timerEnabled then {h} else old(scheduled),
             lastMoveTime := if !gameOver && timerSettings.timerEnabled then now else old(lastMoveTime))
    {
      lastMove := Some(LastMove(row, col, color));
      moveHistory := moveHistory + [Move(row, col, color, yugos)];
      AddIncrement();
      if gameOver {
        StopTimer();
      } else if timerSettings.timerEnabled {
        StartTimer(h, now);
      }
    }

    /**
     * An accepted move by the player to move (socketHandlers.js:116-169): the board becomes
     * Played, the reply is MoveResult, then the outcome, the bookkeeping and the clock.
     */
    method Perform(row: int, col: int, color: Color, h: Handle, now: int) returns (update: MoveUpdate)
      requires Valid() && currentPlayer == color && InBounds(Pos(row, col)) && Snapshot(board)[row][col] == Empty
      modifies this, board
      ensures Valid()
      ensures var g := old(Snapshot(board));
        && update == MoveResult(g, Pos(row, col), color)
        && Snapshot(board) == Played(g, Pos(row, col), color)
        && Current() == AfterMove(old(Current()), g, Pos(row, col), color, timerSettings, h, now)
    {
      var yugos, yugoType, removed := PlaceAndCapture(row, col, color);
      var igo, gameOver, winner := Conclude(row, col, color);
      RecordMove(row, col, color, |yugos|, gameOver, h, now);
      update := MoveUpdate(row, col, color, |yugos|, yugoType, removed, gameOver, winner, igo);
    }

    /**
     * handleMakeMove on this record (socketHandlers.js:109-169). The move is refused,
     * with nothing changed, unless the game is active, it is the caller's turn (a caller
     * that is not white's socket plays black) and the move is valid. An accepted move
     * leaves the board Played and reports MoveResult; an igo keeps the mover to move,
     * otherwise the turn passes. One history entry is appended, the increment is added,
     * and the clock is stopped when the game is over and restarted with h otherwise.
     */
    method MakeMove(caller: SocketId, row: int, col: int, h: Handle, now: int) returns (update: Option<MoveUpdate>)
      requires Valid()
      modifies this, board
      ensures Valid()
      ensures update.Some? <==>
        old(gameStatus) == Active && ColorOf(caller) == old(currentPlayer) && ValidMove(old(Snapshot(board)), row, col, old(currentPlayer))
      ensures update.None? ==> Current() == old(Current()) && Snapshot(board) == old(Snapshot(board))
      ensures update.Some? ==>
        var g := old(Snapshot(board));
        && update == Some(MoveResult(g, Pos(row, col), old(currentPlayer)))
        && Snapshot(board) == Played(g, Pos(row, col), old(currentPlayer))
        && Current() == AfterMove(old(Current()), g, Pos(row, col), old(currentPlayer), timerSettings, h, now)
    {
      if gameStatus != Active {
        return None;
      }
      var color := ColorOf(caller);
      if currentPlayer != color {
        return None;
      }
      var valid := IsValidMove(board, row, col, color);
      if !valid {
        return None;
      }
      var r := Perform(row, col, color, h, now);
      update := Some(r);
    }
  }
}
