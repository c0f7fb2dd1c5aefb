/**
 * The session state of the server (server/index_new.js:302-304) and the socket event
 * handlers that change it (server/socketHandlers.js, roomHandlers.js, drawHandlers.js,
 * disconnectHandlers.js, testAndRematchHandlers.js).
 *
 * The three shared collections are fields of one Server object: `games` (id to game
 * record), `waitingPlayers` and `rooms` (code to lobby). The insertion order of the two
 * Maps is kept beside them, since handleDisconnect visits their entries in that order.
 * A handler's caller is its socket id; messages sent to sockets are left out, and a
 * handler returns what its messages would tell (the winner, the new game, the error).
 * uuidv4, the room-code generator, setInterval and Date.now are parameters.
 */
module GameServer {
  import opened Wrappers
  import opened Collections
  import opened GameLogic
  import opened GameRecord

  /** An entry of waitingPlayers (socketHandlers.js:97-100). */
  datatype WaitingPlayer = WaitingPlayer(id: SocketId, name: string, userId: Option<string>, isGuest: bool)

  function AsPlayer(w: WaitingPlayer): Player
  {
    Player(w.id, w.name, w.userId)
  }

  /** A lobby's status: 'waiting', 'ready', 'active'. */
  datatype RoomStatus = Waiting | Ready | Started

  datatype Room = Room(code: RoomCode, host: Player, guest: Option<Player>, gameId: Option<GameId>, status: RoomStatus)

  /** A lobby has a guest exactly when it is not waiting. */
  predicate RoomValid(code: RoomCode, r: Room)
  {
    r.code == code && (r.guest.Some? <==> r.status != Waiting)
  }

  predicate InRoom(r: Room, caller: SocketId)
  {
    r.host.id == caller || (r.guest.Some? && r.guest.value.id == caller)
  }

  /** A record's room code is truthy: it names a room and the code is not empty. */
  predicate FromRoom(code: Option<RoomCode>)
  {
    code.Some? && code.value != ""
  }

  /** The roomError replies of handleJoinRoom, in the order they are checked, and success. */
  datatype JoinResult = Joined | RoomNotFound | NotAvailable | RoomFull | OwnRoom

  /** The roomError replies of handleStartRoomGame, and the id of the started game. */
  datatype StartResult = GameStarted(gameId: GameId) | NotReady | NotHost

  /** A drawOffered message: recipient socket, offering colour and name. */
  datatype DrawNotice = DrawNotice(to: SocketId, fromPlayer: Color, fromName: string)

  /** A timerSync reply. */
  datatype TimerSync = TimerSync(timers: ByColor, activeTimer: Color)

  /** A rematchRequested message: recipient socket, requesting colour and name. */
  datatype RematchNotice = RematchNotice(to: SocketId, requester: Color, requesterName: string)

  /** A gameEnd after a disconnect: which game ended and who won. */
  datatype GameEnd = GameEnd(gameId: GameId, winner: Color)

  /** String.prototype.toUpperCase on the letters a-z. */
  function UpperChar(c: char): char
  {
    if 'a' <= c <= 'z' then (c as int - 32) as char else c
  }

  function Upper(s: string): (r: string)
    ensures |r| == |s| && forall i :: 0 <= i < |s| ==> r[i] == UpperChar(s[i])
  {
    seq(|s|, i requires 0 <= i < |s| => UpperChar(s[i]))
  }

  /** Upper-casing twice is upper-casing once. */
  lemma UpperIdempotent(s: string)
    ensures Upper(Upper(s)) == Upper(s)
  {
    assert forall i :: 0 <= i < |s| ==> UpperChar(UpperChar(s[i])) == UpperChar(s[i]);
  }

  /** The position in `order` of the first room the caller is in, as handleDisconnect's loop finds it. */
  function FirstRoomOf(order: seq<RoomCode>, rooms: map<RoomCode, Room>, caller: SocketId): nat
  {
    FirstMatch(order, c => c in rooms && InRoom(rooms[c], caller))
  }

  /** The position in `order` of the first game the caller plays in. */
  function FirstGameOf(order: seq<GameId>, games: map<GameId, Game>, caller: SocketId): nat
  {
    FirstMatch(order, k => k in games && games[k].Plays(caller))
  }

  lemma FirstRoomOfIs(order: seq<RoomCode>, rooms: map<RoomCode, Room>, caller: SocketId, i: nat)
    requires i <= |order| && (i < |order| ==> order[i] in rooms && InRoom(rooms[order[i]], caller))
    requires forall j :: 0 <= j < i ==> !(order[j] in rooms && InRoom(rooms[order[j]], caller))
    ensures FirstRoomOf(order, rooms, caller) == i
  {
    FirstMatchIs(order, c => c in rooms && InRoom(rooms[c], caller), i);
  }

  lemma FirstGameOfIs(order: seq<GameId>, games: map<GameId, Game>, caller: SocketId, i: nat)
    requires i <= |order| && (i < |order| ==> order[i] in games && games[order[i]].Plays(caller))
    requires forall j :: 0 <= j < i ==> !(order[j] in games && games[order[j]].Plays(caller))
    ensures FirstGameOf(order, games, caller) == i
  {
    FirstMatchIs(order, k => k in games && games[k].Plays(caller), i);
  }

  /** handleCancelMatchmaking's and handleDisconnect's removal: the caller's first waiting entry leaves the list. */
  function Dequeue(ws: seq<WaitingPlayer>, caller: SocketId): seq<WaitingPlayer>
  {
    var i := FirstMatch(ws, (w: WaitingPlayer) => w.id == caller);
    if i < |ws| then RemoveAt(ws, i) else ws
  }

  /** Exactly one entry of the caller, the first, is gone, and the others keep their order. */
  lemma DequeueEffect(ws: seq<WaitingPlayer>, caller: SocketId)
    ensures var i := FirstMatch(ws, (w: WaitingPlayer) => w.id == caller);
      && (i == |ws| <==> forall w :: w in ws ==> w.id != caller)
      && (i < |ws| ==> ws[i].id == caller && multiset(Dequeue(ws, caller)) == multiset(ws) - multiset{ws[i]})
      && (i == |ws| ==> Dequeue(ws, caller) == ws)
  {
    var i := FirstMatch(ws, (w: WaitingPlayer) => w.id == caller);
    if i < |ws| {
      RemoveAtMultiset(ws, i);
    } else {
      forall w | w in ws
        ensures w.id != caller
      {
        var j :| 0 <= j < |ws| && ws[j] == w;
      }
    }
  }

  /** The lobby registry as a value: the rooms map and its insertion order. */
  datatype Lobbies = Lobbies(rooms: map<RoomCode, Room>, order: seq<RoomCode>)

  /** The order lists the codes, and every lobby is filed under its code and has a guest exactly when it is not waiting. */
  ghost predicate LobbiesValid(ls: Lobbies)
  {
    Tracks(ls.rooms, ls.order) && forall c :: c in ls.rooms ==> RoomValid(c, ls.rooms[c])
  }

  /** rooms.delete(code). */
  function Close(ls: Lobbies, code: RoomCode): Lobbies
  {
    Lobbies(ls.rooms - {code}, Without(ls.order, code))
  }

  /**
   * The caller leaves lobby `code` (roomHandlers.js:196-216, disconnectHandlers.js:17-32):
   * nothing for a missing lobby; the host's leaving closes it, the guest's leaving
   * reopens it without a guest; anyone else changes nothing.
   */
  function Leave(ls: Lobbies, code: RoomCode, caller: SocketId): Lobbies
  {
    if code !in ls.rooms then ls
    else
      var room := ls.rooms[code];
      if room.host.id == caller then Close(ls, code)
      else if room.guest.Some? && room.guest.value.id == caller then
        ls.(rooms := ls.rooms[code := room.(guest := None, status := Waiting)])
      else ls
  }

  /** The room loop of handleDisconnect: the first lobby in insertion order that the caller is in. */
  function FirstLeave(ls: Lobbies, caller: SocketId): Lobbies
  {
    var j := FirstRoomOf(ls.order, ls.rooms, caller);
    if j < |ls.order| then Leave(ls, ls.order[j], caller) else ls
  }

  lemma CloseValid(ls: Lobbies, code: RoomCode)
    requires LobbiesValid(ls)
    ensures LobbiesValid(Close(ls, code))
  {
    TracksDelete(ls.rooms, ls.order, code);
  }

  /** Replacing a filed lobby keeps the order. */
  lemma ReplaceValid(ls: Lobbies, code: RoomCode, r: Room)
    requires LobbiesValid(ls) && code in ls.rooms && RoomValid(code, r)
    ensures LobbiesValid(ls.(rooms := ls.rooms[code := r]))
  {
    TracksSet(ls.rooms, ls.order, code, r);
  }

  lemma LeaveValid(ls: Lobbies, code: RoomCode, caller: SocketId)
    requires LobbiesValid(ls)
    ensures LobbiesValid(Leave(ls, code, caller))
  {
    if code in ls.rooms {
      var room := ls.rooms[code];
      if room.host.id == caller {
        CloseValid(ls, code);
      } else if room.guest.Some? && room.guest.value.id == caller {
        ReplaceValid(ls, code, room.(guest := None, status := Waiting));
      }
    }
  }

  /**
   * Leaving touches at most the one lobby: every other code keeps its lobby, and an
   * outsider's leaving changes nothing.
   */
  lemma LeaveOthers(ls: Lobbies, code: RoomCode, caller: SocketId)
    ensures var r := Leave(ls, code, caller);
      && (forall c :: c != code ==> (c in r.rooms <==> c in ls.rooms))
      && (forall c :: c != code && c in ls.rooms ==> r.rooms[c] == ls.rooms[c])
      && (code in ls.rooms && !InRoom(ls.rooms[code], caller) ==> r == ls)
  {
  }

  /** Leaving twice is leaving once. */
  lemma LeaveIdempotent(ls: Lobbies, code: RoomCode, caller: SocketId)
    ensures Leave(Leave(ls, code, caller), code, caller) == Leave(ls, code, caller)
  {
    if code in ls.rooms && ls.rooms[code].host.id == caller {
      assert code !in Leave(ls, code, caller).rooms;
    }
  }

  /** The first lobby the caller is in, if any, is the only one that changes. */
  lemma FirstLeaveEffect(ls: Lobbies, caller: SocketId)
    requires LobbiesValid(ls)
    ensures var j := FirstRoomOf(ls.order, ls.rooms, caller);
      && (j == |ls.order| <==> forall c :: c in ls.rooms ==> !InRoom(ls.rooms[c], caller))
      && (j == |ls.order| ==> FirstLeave(ls, caller) == ls)
      && (j < |ls.order| ==> ls.order[j] in ls.rooms && InRoom(ls.rooms[ls.order[j]], caller))
  {
    var j := FirstRoomOf(ls.order, ls.rooms, caller);
    if j == |ls.order| {
      forall c | c in ls.rooms
        ensures !InRoom(ls.rooms[c], caller)
      {
        assert c in ls.order;
        var k :| 0 <= k < |ls.order| && ls.order[k] == c;
      }
    }
  }

  /**
   * g is a game record as created by a handler: empty board, white to move, active,
   * no scores or history, both clocks at minutesPerPlayer*60, and the clock started
   * with handle h at `now` when the settings enable it.
   */
  ghost predicate IsNewGame(g: Game, id: GameId, white: Player, black: Player, settings: TimerSettings,
                            roomCode: Option<RoomCode>, h: Handle, now: int)
    reads g, g.board
  {
    && g.Valid()
    && g.id == id && g.white == white && g.black == black
    && g.timerSettings == settings && g.roomCode == roomCode
    && Snapshot(g.board) == EmptyGrid()
    && g.Current() == State(White, Active, [], ByColor(0, 0), None,
         ByColor(settings.minutesPerPlayer * 60, settings.minutesPerPlayer * 60),
         if settings.timerEnabled then Some(h) else None, if settings.timerEnabled then {h} else {},
         now, None, {})
  }

  class Server {
    var games: map<GameId, Game>
    var gameOrder: seq<GameId>
    var waitingPlayers: seq<WaitingPlayer>
    var rooms: map<RoomCode, Room>
    var roomOrder: seq<RoomCode>

    ghost function Records(): set<object>
      reads this
    {
      (set k | k in games :: games[k] as object) + (set k | k in games :: games[k].board as object)
    }

    /** The record stored under id, if there is one. */
    ghost function RecordAt(id: GameId): set<object>
      reads this
    {
      if id in games then {games[id]} else {}
    }

    /** The board of the record stored under id, if there is one. */
    ghost function BoardAt(id: GameId): set<object>
      reads this
    {
      if id in games then {games[id].board} else {}
    }

    /**
     * The registries' invariant: the key orders list the keys, every record is valid
     * and filed under its own id, no record or board is shared by two ids, and every
     * lobby is filed under its code and has a guest exactly when it is not waiting
     * (LobbiesValid).
     */
    ghost predicate Valid()
      reads this, Records()
    {
      && Tracks(games, gameOrder) && LobbiesValid(Lobbies(rooms, roomOrder))
      && (forall k :: k in games ==> games[k].id == k && games[k].Valid())
      && (forall k1, k2 :: k1 in games && k2 in games && k1 != k2 ==>
            games[k1] != games[k2] && games[k1].board != games[k2].board)
    }

    constructor ()
      ensures Valid()
      ensures games == map[] && gameOrder == [] && waitingPlayers == [] && rooms == map[] && roomOrder == []
    {
      games := map[];
      gameOrder := [];
      waitingPlayers := [];
      rooms := map[];
      roomOrder := [];
    }

    // ------------------------------------------------------------ the clock by id (gameTimer.js)

    /** startServerTimer (gameTimer.js:3-45): nothing for a missing game. */
    method StartServerTimer(gameId: GameId, h: Handle, now: int)
      requires Valid()
      modifies RecordAt(gameId)
      ensures Valid()
      ensures gameId in games ==> var g := games[gameId];
        g.Current() == if !g.timerSettings.timerEnabled then old(g.Current())
          else old(g.Current()).(timerInterval := Some(h), scheduled := {h}, lastMoveTime := now)
    {
      if gameId in games {
        games[gameId].StartTimer(h, now);
      }
    }

    /** stopServerTimer (gameTimer.js:47-54): nothing for a missing game. */
    method StopServerTimer(gameId: GameId)
      requires Valid()
      modifies RecordAt(gameId)
      ensures Valid()
      ensures gameId in games ==> var g := games[gameId];
        g.Current() == old(g.Current()).(timerInterval := None, scheduled := {})
    {
      if gameId in games {
        games[gameId].StopTimer();
      }
    }

    /** addTimeIncrement (gameTimer.js:57-65): nothing for a missing game. */
    method AddTimeIncrement(gameId: GameId)
      requires Valid()
      modifies RecordAt(gameId)
      ensures Valid()
      ensures gameId in games ==> var g := games[gameId]; var c := Other(old(g.currentPlayer));
        g.Current() == if !g.timerSettings.timerEnabled || g.timerSettings.incrementSeconds == 0 then old(g.Current())
          else old(g.Current()).(timers := old(g.timers).Set(c, old(g.timers).Get(c) + g.timerSettings.incrementSeconds))
    {
      if gameId in games {
        games[gameId].AddIncrement();
      }
    }

    // ------------------------------------------------------------ matchmaking and play (socketHandlers.js)

    /** Files a new record under its id; the key order and the invariant follow. */
    method FileGame(g: Game)
      requires Valid() && g.Valid()
      requires forall k :: k in games ==> games[k] != g && games[k].board != g.board
      modifies this
      ensures Valid()
      ensures games == old(games)[g.id := g] && gameOrder == Append(old(gameOrder), g.id)
      ensures waitingPlayers == old(waitingPlayers) && rooms == old(rooms) && roomOrder == old(roomOrder)
    {
      TracksSet(games, gameOrder, g.id, g);
      games := games[g.id := g];
      gameOrder := Append(gameOrder, g.id);
    }

    /** games.delete(id); the key order and the invariant follow. */
    method DeleteGame(id: GameId)
      requires Valid()
      modifies this
      ensures Valid()
      ensures games == old(games) - {id} && gameOrder == Without(old(gameOrder), id)
      ensures waitingPlayers == old(waitingPlayers) && rooms == old(rooms) && roomOrder == old(roomOrder)
    {
      TracksDelete(games, gameOrder, id);
      games := games - {id};
      gameOrder := Without(gameOrder, id);
    }

    /**
     * A new game record filed under id with its clock started by h: the steps that
     * handleFindMatch and handleStartRoomGame share (socketHandlers.js:28-49, 93-95,
     * roomHandlers.js:115-137, 187-189).
     */
    method Launch(id: GameId, white: Player, black: Player, settings: TimerSettings, roomCode: Option<RoomCode>, h: Handle, now: int)
      returns (g: Game)
      requires Valid()
      modifies this
      ensures Valid() && fresh(g)
      ensures games == old(games)[id := g] && gameOrder == Append(old(gameOrder), id)
      ensures waitingPlayers == old(waitingPlayers) && rooms == old(rooms) && roomOrder == old(roomOrder)
      ensures IsNewGame(g, id, white, black, settings, roomCode, h, now)
    {
      g := new Game(id, white, black, settings, roomCode, now);
      FileGame(g);
      StartServerTimer(id, h, now);
    }

    /**
     * handleFindMatch (socketHandlers.js:7-102). The first waiting entry of the caller's
     * category (guest or member) is taken out of the list and becomes white, the caller
     * black, in a new standard game under gameId whose clock is started. With no such
     * entry the caller joins the end of the list. The client's timer settings are ignored.
     */
    method FindMatch(me: WaitingPlayer, gameId: GameId, h: Handle, now: int) returns (opponent: Option<WaitingPlayer>)
      requires Valid()
      modifies this
      ensures Valid()
      ensures var ws := old(waitingPlayers); var i := FirstMatch(ws, (w: WaitingPlayer) => w.isGuest == me.isGuest);
        && (i == |ws| ==>
              && opponent == None && waitingPlayers == ws + [me]
              && games == old(games) && gameOrder == old(gameOrder))
        && (i < |ws| ==>
              && opponent == Some(ws[i]) && waitingPlayers == RemoveAt(ws, i)
              && gameId in games && fresh(games[gameId]) && games == old(games)[gameId := games[gameId]]
              && gameOrder == Append(old(gameOrder), gameId)
              && IsNewGame(games[gameId], gameId, AsPlayer(ws[i]), AsPlayer(me), StandardTimer, None, h, now))
      ensures rooms == old(rooms) && roomOrder == old(roomOrder)
    {
      var i := FirstMatch(waitingPlayers, (w: WaitingPlayer) => w.isGuest == me.isGuest);
      if i < |waitingPlayers| {
        var w := waitingPlayers[i];
        waitingPlayers := RemoveAt(waitingPlayers, i);
        var g := Launch(gameId, AsPlayer(w), AsPlayer(me), StandardTimer, None, h, now);
        opponent := Some(w);
      } else {
        waitingPlayers := waitingPlayers + [me];
        opponent := None;
      }
    }

    /** handleMakeMove (socketHandlers.js:106-190): nothing for a missing game, otherwise Game.MakeMove. */
    method MakeMove(gameId: GameId, caller: SocketId, row: int, col: int, h: Handle, now: int)
      returns (update: Option<MoveUpdate>)
      requires Valid()
      modifies RecordAt(gameId), BoardAt(gameId)
      ensures Valid()
      ensures gameId !in games ==> update == None
      ensures gameId in games ==> var g := games[gameId]; var color := old(g.currentPlayer); var b := old(Snapshot(g.board));
        && (update.Some? <==> old(g.gameStatus) == Active && g.ColorOf(caller) == color && ValidMove(b, row, col, color))
        && (update.None? ==> g.Current() == old(g.Current()) && Snapshot(g.board) == b)
        && (update.Some? ==>
              && update == Some(MoveResult(b, Pos(row, col), color))
              && Snapshot(g.board) == Played(b, Pos(row, col), color)
              && g.Current() == AfterMove(old(g.Current()), b, Pos(row, col), color, g.timerSettings, h, now))
    {
      if gameId !in games {
        return None;
      }
      update := games[gameId].MakeMove(caller, row, col, h, now);
      OnlyRecordChanged(gameId);
    }

    /**
     * The registries stay valid when only the record under id and its board changed and
     * that record is still valid.
     */
    twostate lemma OnlyRecordChanged(id: GameId)
      requires old(Valid()) && id in games && unchanged(this) && games[id].Valid()
      requires forall k :: k in games && k != id ==> unchanged(games[k], games[k].board)
      ensures Valid()
    {
    }

    /** handleCancelMatchmaking (socketHandlers.js:194-200): the caller's first waiting entry leaves the list. */
    method CancelMatchmaking(caller: SocketId)
      requires Valid()
      modifies this
      ensures Valid()
      ensures waitingPlayers == Dequeue(old(waitingPlayers), caller)
      ensures games == old(games) && gameOrder == old(gameOrder) && rooms == old(rooms) && roomOrder == old(roomOrder)
    {
      var i := FirstMatch(waitingPlayers, (w: WaitingPlayer) => w.id == caller);
      if i < |waitingPlayers| {
        waitingPlayers := RemoveAt(waitingPlayers, i);
      }
    }

    /** handleRequestTimerSync (socketHandlers.js:204-217): the clocks and the side to move, reading nothing else. */
    method RequestTimerSync(gameId: GameId) returns (reply: Option<TimerSync>)
      requires Valid()
      ensures reply.Some? <==> gameId in games
      ensures gameId in games ==> reply == Some(TimerSync(games[gameId].timers, games[gameId].currentPlayer))
    {
      if gameId !in games {
        return None;
      }
      var g := games[gameId];
      reply := Some(TimerSync(g.timers, g.currentPlayer));
    }

    /**
     * handleResign (socketHandlers.js:221-236): whatever the status, the game is finished,
     * its clock stopped, and the colour opposite the resigner wins.
     */
    method Resign(gameId: GameId, caller: SocketId) returns (winner: Option<Color>)
      requires Valid()
      modifies RecordAt(gameId)
      ensures Valid()
      ensures gameId !in games ==> winner == None
      ensures gameId in games ==> var g := games[gameId];
        && winner == Some(Other(g.ColorOf(caller)))
        && g.Current() == old(g.Current()).(gameStatus := Finished, timerInterval := None, scheduled := {})
    {
      if gameId !in games {
        return None;
      }
      var g := games[gameId];
      var color := g.ColorOf(caller);
      winner := Some(Other(color));
      g.gameStatus := Finished;
      StopServerTimer(gameId);
    }

    // ------------------------------------------------------------ draws (drawHandlers.js)

    /**
     * handleDrawOffer (drawHandlers.js:5-21): for an active game, a notice to the caller's
     * opponent naming the caller's colour and name; nothing changes.
     */
    method DrawOffer(gameId: GameId, caller: SocketId) returns (notice: Option<DrawNotice>)
      requires Valid()
      ensures notice.Some? <==> gameId in games && games[gameId].gameStatus == Active
      ensures notice.Some? ==> var g := games[gameId];
        && (notice.value.fromPlayer == White <==> caller == g.white.id)
        && notice.value.to == (if caller == g.white.id then g.black.id else g.white.id)
        && notice.value.fromName == (if caller == g.white.id then g.white.name else g.black.name)
    {
      if gameId !in games || games[gameId].gameStatus != Active {
        return None;
      }
      var g := games[gameId];
      var color := g.ColorOf(caller);
      var opponent := Other(color);
      notice := Some(DrawNotice(g.Of(opponent).id, color, g.Of(color).name));
    }

    /**
     * handleDrawAccept (drawHandlers.js:24-39): an active game is finished as a draw and its
     * clock stopped; no offer needs to be pending. A game that is missing or no longer
     * active is left alone, so a second accept does nothing.
     */
    method DrawAccept(gameId: GameId) returns (ended: bool)
      requires Valid()
      modifies RecordAt(gameId)
      ensures Valid()
      ensures ended <==> gameId in games && old(games[gameId].gameStatus) == Active
      ensures ended ==> games[gameId].Current() == old(games[gameId].Current()).(gameStatus := Finished, timerInterval := None, scheduled := {})
      ensures !ended && gameId in games ==> games[gameId].Current() == old(games[gameId].Current())
    {
      if gameId !in games || games[gameId].gameStatus != Active {
        return false;
      }
      games[gameId].gameStatus := Finished;
      StopServerTimer(gameId);
      ended := true;
    }

    /** handleDrawDecline (drawHandlers.js:42-54): for an active game, the caller's opponent is told; nothing changes. */
    method DrawDecline(gameId: GameId, caller: SocketId) returns (to: Option<SocketId>)
      requires Valid()
      ensures to.Some? <==> gameId in games && games[gameId].gameStatus == Active
      ensures to.Some? ==> var g := games[gameId];
        to.value == (if caller == g.white.id then g.black.id else g.white.id)
    {
      if gameId !in games || games[gameId].gameStatus != Active {
        return None;
      }
      var g := games[gameId];
      var opponent := Other(g.ColorOf(caller));
      to := Some(g.Of(opponent).id);
    }

    // ------------------------------------------------------------ lobbies (roomHandlers.js)

    /** rooms.delete(code); the key order and the invariant follow. */
    method DeleteRoom(code: RoomCode)
      requires Valid()
      modifies this
      ensures Valid()
      ensures Lobbies(rooms, roomOrder) == Close(old(Lobbies(rooms, roomOrder)), code)
      ensures games == old(games) && gameOrder == old(gameOrder) && waitingPlayers == old(waitingPlayers)
    {
      CloseValid(Lobbies(rooms, roomOrder), code);
      rooms := rooms - {code};
      roomOrder := Without(roomOrder, code);
    }

    /**
     * handleCreateRoom (roomHandlers.js:7-40). `codes` is what the code generator yields,
     * one code per try; the first code that is not a lobby's already is taken, and a
     * waiting lobby with the caller as host, no guest and no game is filed under it.
     */
    method CreateRoom(host: Player, codes: seq<RoomCode>) returns (code: RoomCode)
      requires Valid()
      requires exists i :: 0 <= i < |codes| && codes[i] !in rooms
      modifies this
      ensures Valid()
      ensures var taken := old(rooms); var i := FirstMatch(codes, (c: RoomCode) => c !in taken);
        i < |codes| && code == codes[i]
      ensures code !in old(rooms)
      ensures rooms == old(rooms)[code := Room(code, host, None, None, Waiting)] && roomOrder == old(roomOrder) + [code]
      ensures games == old(games) && gameOrder == old(gameOrder) && waitingPlayers == old(waitingPlayers)
    {
      var i := 0;
      code := codes[0];
      while code in rooms
        invariant 0 <= i < |codes| && code == codes[i]
        invariant forall j :: 0 <= j < i ==> codes[j] in rooms
        invariant exists j :: i <= j < |codes| && codes[j] !in rooms
        decreases |codes| - i
      {
        i := i + 1;
        code := codes[i];
      }
      var taken := rooms;
      FirstMatchIs(codes, (c: RoomCode) => c !in taken, i);
      var room := Room(code, host, None, None, Waiting);
      TracksSet(rooms, roomOrder, code, room);
      rooms := rooms[code := room];
      roomOrder := roomOrder + [code];
    }

    /**
     * handleJoinRoom (roomHandlers.js:44-89). The code is upper-cased, then the join is
     * refused, in this order, for a missing lobby, a lobby that is not waiting, and the
     * host joining their own lobby; a refusal changes nothing. A waiting lobby has no
     * guest, so the 'Room is full' refusal (roomHandlers.js:58-61) cannot happen and the
     * model leaves it out. A join makes the caller the guest and the lobby ready.
     */
    method JoinRoom(code: RoomCode, guest: Player) returns (result: JoinResult)
      requires Valid()
      modifies this
      ensures Valid()
      ensures var key := Upper(code);
        && (result == RoomNotFound <==> key !in old(rooms))
        && (result == NotAvailable <==> key in old(rooms) && old(rooms)[key].status != Waiting)
        && (result == OwnRoom <==> key in old(rooms) && old(rooms)[key].status == Waiting && old(rooms)[key].host.id == guest.id)
        && result != RoomFull
        && (result == Joined ==> rooms == old(rooms)[key := old(rooms)[key].(guest := Some(guest), status := Ready)])
        && (result != Joined ==> rooms == old(rooms))
      ensures roomOrder == old(roomOrder)
      ensures games == old(games) && gameOrder == old(gameOrder) && waitingPlayers == old(waitingPlayers)
    {
      var key := Upper(code);
      if key !in rooms {
        return RoomNotFound;
      }
      var room := rooms[key];
      if room.status != Waiting {
        return NotAvailable;
      }
      if room.host.id == guest.id {
        return OwnRoom;
      }
      var joined := room.(guest := Some(guest), status := Ready);
      ReplaceValid(Lobbies(rooms, roomOrder), key, joined);
      rooms := rooms[key := joined];
      result := Joined;
    }

    /**
     * handleStartRoomGame (roomHandlers.js:92-191). The code is used as given. The start is
     * refused unless the lobby exists and is ready, and then unless the caller is its
     * host; a refusal changes nothing. Otherwise a standard game with the host as white
     * and the guest as black, remembering the lobby's code, is filed under gameId and its
     * clock started, and the lobby stays, marked started with the game's id.
     */
    method StartRoomGame(code: RoomCode, caller: SocketId, gameId: GameId, h: Handle, now: int) returns (result: StartResult)
      requires Valid()
      modifies this
      ensures Valid()
      ensures result == NotReady <==> code !in old(rooms) || old(rooms)[code].status != Ready
      ensures result == NotHost <==> code in old(rooms) && old(rooms)[code].status == Ready && old(rooms)[code].host.id != caller
      ensures !result.GameStarted? ==> games == old(games) && gameOrder == old(gameOrder) && rooms == old(rooms)
      ensures result.GameStarted? ==> var room := old(rooms)[code];
        && result.gameId == gameId && room.guest.Some?
        && gameId in games && fresh(games[gameId]) && games == old(games)[gameId := games[gameId]]
        && gameOrder == Append(old(gameOrder), gameId)
        && IsNewGame(games[gameId], gameId, room.host, room.guest.value, StandardTimer, Some(code), h, now)
        && rooms == old(rooms)[code := room.(gameId := Some(gameId), status := Started)]
      ensures roomOrder == old(roomOrder) && waitingPlayers == old(waitingPlayers)
    {
      if code !in rooms || rooms[code].status != Ready {
        return NotReady;
      }
      var room := rooms[code];
      if room.host.id != caller {
        return NotHost;
      }
      var g := Launch(gameId, room.host, room.guest.value, StandardTimer, Some(code), h, now);
      var started := room.(gameId := Some(gameId), status := Started);
      ReplaceValid(Lobbies(rooms, roomOrder), code, started);
      rooms := rooms[code := started];
      result := GameStarted(gameId);
    }

    /** The caller leaves lobby `code`, as Leave says. */
    method Vacate(code: RoomCode, caller: SocketId)
      requires Valid()
      modifies this
      ensures Valid()
      ensures Lobbies(rooms, roomOrder) == Leave(old(Lobbies(rooms, roomOrder)), code, caller)
      ensures games == old(games) && gameOrder == old(gameOrder) && waitingPlayers == old(waitingPlayers)
    {
      if code !in rooms {
        return;
      }
      var room := rooms[code];
      if room.host.id == caller {
        DeleteRoom(code);
      } else if room.guest.Some? && room.guest.value.id == caller {
        var reopened := room.(guest := None, status := Waiting);
        ReplaceValid(Lobbies(rooms, roomOrder), code, reopened);
        rooms := rooms[code := reopened];
      }
    }

    /** handleLeaveRoom (roomHandlers.js:194-218). */
    method LeaveRoom(code: RoomCode, caller: SocketId)
      requires Valid()
      modifies this
      ensures Valid()
      ensures Lobbies(rooms, roomOrder) == Leave(old(Lobbies(rooms, roomOrder)), code, caller)
      ensures games == old(games) && gameOrder == old(gameOrder) && waitingPlayers == old(waitingPlayers)
    {
      Vacate(code, caller);
    }

    // ------------------------------------------------------------ disconnect (disconnectHandlers.js)

    /** The record of the first game, in insertion order, that the caller plays in. */
    ghost function CallerGame(caller: SocketId): set<object>
      reads this
    {
      var i := FirstGameOf(gameOrder, games, caller);
      if i < |gameOrder| && gameOrder[i] in games then {games[gameOrder[i]]} else {}
    }

    /** The room loop of handleDisconnect (disconnectHandlers.js:16-34). */
    method DropRoom(caller: SocketId)
      requires Valid()
      modifies this
      ensures Valid()
      ensures Lobbies(rooms, roomOrder) == FirstLeave(old(Lobbies(rooms, roomOrder)), caller)
      ensures games == old(games) && gameOrder == old(gameOrder) && waitingPlayers == old(waitingPlayers)
    {
      var j := 0;
      while j < |roomOrder| && !(roomOrder[j] in rooms && InRoom(rooms[roomOrder[j]], caller))
        invariant j <= |roomOrder|
        invariant forall k :: 0 <= k < j ==> !(roomOrder[k] in rooms && InRoom(rooms[roomOrder[k]], caller))
      {
        j := j + 1;
      }
      FirstRoomOfIs(roomOrder, rooms, caller, j);
      if j < |roomOrder| {
        Vacate(roomOrder[j], caller);
      }
    }

    /** The for-of search of handleDisconnect's game loop (disconnectHandlers.js:37-38). */
    method FindCallerGame(caller: SocketId) returns (i: nat)
      requires Valid()
      ensures i == FirstGameOf(gameOrder, games, caller)
    {
      i := 0;
      while i < |gameOrder| && !(gameOrder[i] in games && games[gameOrder[i]].Plays(caller))
        invariant i <= |gameOrder|
        invariant forall k :: 0 <= k < i ==> !(gameOrder[k] in games && games[gameOrder[k]].Plays(caller))
      {
        i := i + 1;
      }
      FirstGameOfIs(gameOrder, games, caller, i);
    }

    /**
     * The forfeit of the record under id (disconnectHandlers.js:43-51): the disconnect time
     * is set when the game was active, the clock is stopped and the game finished.
     */
    method EndRecord(id: GameId, now: int)
      requires Valid() && id in games
      modifies RecordAt(id)
      ensures Valid()
      ensures var g := games[id];
        g.Current() == old(g.Current()).(
          gameStatus := Finished, timerInterval := None, scheduled := {},
          playerDisconnectTime := if old(g.gameStatus) == Active then Some(now) else old(g.playerDisconnectTime))
    {
      var g := games[id];
      if g.gameStatus == Active {
        g.playerDisconnectTime := Some(now);
      }
      StopServerTimer(id);
      g.gameStatus := Finished;
    }

    /**
     * The forfeit and removal of the game under id by the caller's disconnect
     * (disconnectHandlers.js:38-70): the other colour wins, the record is ended as
     * EndRecord says, the lobby it came from is closed when its code is not empty
     * (an empty code is falsy, so that lobby stays), and it leaves the registry.
     */
    method Forfeit(id: GameId, caller: SocketId, now: int) returns (ended: GameEnd)
      requires Valid() && id in games
      modifies this, RecordAt(id)
      ensures Valid()
      ensures var g := old(games[id]);
        && ended == GameEnd(id, Other(g.ColorOf(caller)))
        && g.Current() == old(g.Current()).(
             gameStatus := Finished, timerInterval := None, scheduled := {},
             playerDisconnectTime := if old(g.gameStatus) == Active then Some(now) else old(g.playerDisconnectTime))
        && games == old(games) - {id} && gameOrder == Without(old(gameOrder), id)
        && Lobbies(rooms, roomOrder) ==
             if FromRoom(g.roomCode) then Close(old(Lobbies(rooms, roomOrder)), g.roomCode.value) else old(Lobbies(rooms, roomOrder))
      ensures waitingPlayers == old(waitingPlayers)
    {
      var g := games[id];
      var winner := Other(g.ColorOf(caller));
      EndRecord(id, now);
      if FromRoom(g.roomCode) {
        DeleteRoom(g.roomCode.value);
      }
      DeleteGame(id);
      ended := GameEnd(id, winner);
    }

    /**
     * The game loop of handleDisconnect (disconnectHandlers.js:37-71): the first game, in
     * insertion order, that the caller plays in is forfeited to the other colour. Its
     * disconnect time is set when it was active, its clock is stopped, it is finished,
     * the lobby it came from is closed when its code is not empty, and it leaves the registry.
     */
    method DropGame(caller: SocketId, now: int) returns (ended: Option<GameEnd>)
      requires Valid()
      modifies this, CallerGame(caller)
      ensures Valid()
      ensures FirstGameOf(old(gameOrder), old(games), caller) == |old(gameOrder)| ==>
        && ended == None && games == old(games) && gameOrder == old(gameOrder)
        && rooms == old(rooms) && roomOrder == old(roomOrder)
      ensures var i := FirstGameOf(old(gameOrder), old(games), caller);
        i < |old(gameOrder)| ==>
          var id := old(gameOrder)[i];
          var g := old(games)[id];
          && ended == Some(GameEnd(id, Other(g.ColorOf(caller))))
          && g.Current() == old(g.Current()).(
               gameStatus := Finished, timerInterval := None, scheduled := {},
               playerDisconnectTime := if old(g.gameStatus) == Active then Some(now) else old(g.playerDisconnectTime))
          && games == old(games) - {id} && gameOrder == Without(old(gameOrder), id)
          && Lobbies(rooms, roomOrder) ==
               if FromRoom(g.roomCode) then Close(old(Lobbies(rooms, roomOrder)), g.roomCode.value) else old(Lobbies(rooms, roomOrder))
      ensures waitingPlayers == old(waitingPlayers)
    {
      var i := FindCallerGame(caller);
      if i == |gameOrder| {
        return None;
      }
      var end := Forfeit(gameOrder[i], caller, now);
      ended := Some(end);
    }

    /**
     * handleDisconnect (disconnectHandlers.js:5-73): the caller's first waiting entry is
     * removed, then the first lobby the caller is in is left, then the first game the
     * caller plays in is forfeited and removed.
     */
    method Disconnect(caller: SocketId, now: int) returns (ended: Option<GameEnd>)
      requires Valid()
      modifies this, CallerGame(caller)
      ensures Valid()
      ensures waitingPlayers == Dequeue(old(waitingPlayers), caller)
      ensures var lobbies := FirstLeave(old(Lobbies(rooms, roomOrder)), caller);
        var i := FirstGameOf(old(gameOrder), old(games), caller);
        && (i == |old(gameOrder)| ==>
              ended == None && games == old(games) && gameOrder == old(gameOrder) && Lobbies(rooms, roomOrder) == lobbies)
        && (i < |old(gameOrder)| ==>
              var id := old(gameOrder)[i];
              var g := old(games)[id];
              && ended == Some(GameEnd(id, Other(g.ColorOf(caller))))
              && g.Current() == old(g.Current()).(
                   gameStatus := Finished, timerInterval := None, scheduled := {},
                   playerDisconnectTime := if old(g.gameStatus) == Active then Some(now) else old(g.playerDisconnectTime))
              && games == old(games) - {id} && gameOrder == Without(old(gameOrder), id)
              && Lobbies(rooms, roomOrder) == if FromRoom(g.roomCode) then Close(lobbies, g.roomCode.value) else lobbies)
    {
      CancelMatchmaking(caller);
      DropRoom(caller);
      ended := DropGame(caller, now);
    }

    // ------------------------------------------------------------ rematch (testAndRematchHandlers.js)

    /**
     * handleRequestRematch (testAndRematchHandlers.js:61-132). `live` is the set of connected
     * socket ids. Nothing happens for a missing or unfinished game or an opponent who is
     * not connected; otherwise the caller's colour is flagged and the opponent is told.
     */
    method RequestRematch(gameId: GameId, caller: SocketId, live: set<SocketId>) returns (notice: Option<RematchNotice>)
      requires Valid()
      modifies RecordAt(gameId)
      ensures Valid()
      ensures notice.Some? <==>
        gameId in games && old(games[gameId].gameStatus) == Finished
        && games[gameId].Of(Other(games[gameId].ColorOf(caller))).id in live
      ensures gameId in games && notice.None? ==> games[gameId].Current() == old(games[gameId].Current())
      ensures notice.Some? ==> var g := games[gameId]; var c := g.ColorOf(caller);
        && notice.value == RematchNotice(g.Of(Other(c)).id, c, g.Of(c).name)
        && g.Current() == old(g.Current()).(rematchRequests := old(g.rematchRequests) + {c})
    {
      if gameId !in games {
        return None;
      }
      var g := games[gameId];
      if g.gameStatus != Finished {
        return None;
      }
      var color := g.ColorOf(caller);
      var opponent := Other(color);
      if g.Of(opponent).id !in live {
        return None;
      }
      g.rematchRequests := g.rematchRequests + {color};
      notice := Some(RematchNotice(g.Of(opponent).id, color, g.Of(color).name));
    }

    /**
     * An accepted rematch under a new id: the new record is filed and its clock started,
     * then the old id is removed, which does not touch the new record.
     */
    method RematchElsewhere(gameId: GameId, white: Player, black: Player, settings: TimerSettings, newId: GameId, h: Handle, now: int)
      requires Valid() && newId != gameId
      modifies this
      ensures Valid()
      ensures gameOrder == Without(Append(old(gameOrder), newId), gameId)
      ensures newId in games && fresh(games[newId]) && games == old(games)[newId := games[newId]] - {gameId}
      ensures IsNewGame(games[newId], newId, white, black, settings, None, h, now)
      ensures waitingPlayers == old(waitingPlayers) && rooms == old(rooms) && roomOrder == old(roomOrder)
    {
      var rematch := Launch(newId, white, black, settings, None, h, now);
      DeleteGame(gameId);
    }

    /**
     * An accepted rematch whose new id is the old one: the new record is filed over the old
     * one and the removal of the old id takes it, so startServerTimer finds no game.
     */
    method RematchInPlace(gameId: GameId, white: Player, black: Player, settings: TimerSettings, now: int)
      requires Valid()
      modifies this
      ensures Valid()
      ensures games == old(games) - {gameId} && gameOrder == Without(Append(old(gameOrder), gameId), gameId)
      ensures waitingPlayers == old(waitingPlayers) && rooms == old(rooms) && roomOrder == old(roomOrder)
    {
      var rematch := new Game(gameId, white, black, settings, None, now);
      FileGame(rematch);
      DeleteGame(gameId);
      UpdateThenRemove(old(games), gameId, rematch);
    }

    /**
     * handleRespondToRematch (testAndRematchHandlers.js:135-240), for a finished game only;
     * no request needs to be pending. Accepting files a new game under newId with the
     * colours swapped (the caller's opponent is white) and the old timer settings, removes
     * the old game, and starts the new game's clock. Declining removes the opponent's
     * rematch flag. When newId is the old id, the removal takes the new game too.
     */
    method RespondToRematch(gameId: GameId, caller: SocketId, accept: bool, newId: GameId, h: Handle, now: int)
      returns (started: Option<GameId>)
      requires Valid()
      modifies this, RecordAt(gameId)
      ensures Valid()
      ensures started.Some? <==> accept && gameId in old(games) && old(games[gameId].gameStatus) == Finished
      ensures gameId !in old(games) || old(games[gameId].gameStatus) != Finished ==>
        && games == old(games) && gameOrder == old(gameOrder)
        && (gameId in old(games) ==> old(games[gameId]).Current() == old(games[gameId].Current()))
      ensures !accept && gameId in old(games) && old(games[gameId].gameStatus) == Finished ==>
        var g := old(games[gameId]); var c := g.ColorOf(caller);
        && games == old(games) && gameOrder == old(gameOrder)
        && g.Current() == old(g.Current()).(rematchRequests := old(g.rematchRequests) - {Other(c)})
      ensures started.Some? ==>
        var g := old(games[gameId]); var c := g.ColorOf(caller);
        && started == Some(newId)
        && gameOrder == Without(Append(old(gameOrder), newId), gameId)
        && (newId == gameId ==> games == old(games) - {gameId})
        && (newId != gameId ==>
              && newId in games && fresh(games[newId]) && games == old(games)[newId := games[newId]] - {gameId}
              && IsNewGame(games[newId], newId, g.Of(Other(c)), g.Of(c), g.timerSettings, None, h, now))
      ensures waitingPlayers == old(waitingPlayers) && rooms == old(rooms) && roomOrder == old(roomOrder)
    {
      if gameId !in games || games[gameId].gameStatus != Finished {
        return None;
      }
      if accept {
        // The new game: the caller's opponent is white, the caller black, the old timer settings.
        var g := games[gameId];
        var color := g.ColorOf(caller);
        var opponent := Other(color);
        if newId != gameId {
          RematchElsewhere(gameId, g.Of(opponent), g.Of(color), g.timerSettings, newId, h, now);
        } else {
          RematchInPlace(gameId, g.Of(opponent), g.Of(color), g.timerSettings, now);
        }
        started := Some(newId);
      } else {
        var g := games[gameId];
        var opponent := Other(g.ColorOf(caller));
        g.rematchRequests := g.rematchRequests - {opponent};
        started := None;
      }
    }
  }
}
