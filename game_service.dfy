/**
 * The matching server's game service: `startGame` and `endGame` check the
 * request, call the game repository on the `MatchDb` tables and turn its
 * answer into a reply.
 *
 * `endGame` as written reads the repository's answer as a truth value:
 * only 0 is a failure, so the -1 the repository returns for a missing game
 * is reported as a success. `EndGameAsWritten` keeps that reading; the
 * service the model uses, `EndGame`, fails on -1 as `startGame` does.
 */
module GameService {
  import opened Wrappers
  import opened Json
  import opened RoomDb

  datatype StartGameRequest = StartGameRequest(roomId: Option<int>, mapId: Option<int>)
  datatype EndGameRequest = EndGameRequest(gameId: Option<int>, roomId: Option<int>)

  const MissingFields := "Missing required fields in request"

  /** The reply of `startGame` once the repository has answered `gameId`. */
  function StartGameReply(req: StartGameRequest, gameId: int): (reply: Json)
    ensures req.roomId.None? || req.mapId.None? ==> reply == ErrorReply(MissingFields)
    ensures IsSuccess(reply) <==> req.roomId.Some? && req.mapId.Some? && gameId != -1
    ensures IsSuccess(reply) ==> Get(reply, "gameId") == Some(JNum(gameId)) && Get(reply, "action") == Some(JStr("gameStart"))
  {
    if req.roomId.None? || req.mapId.None? then ErrorReply(MissingFields)
    else if gameId == -1 then ErrorReply("Failed to add new game recode")
    else SuccessReply("game successfully created", map["action" := JStr("gameStart"), "gameId" := JNum(gameId)])
  }

  /**
   * The reply of `endGame` once the repository has answered `result`, with
   * the test as written: any non-zero answer is a success. After a success
   * the log line reads `roomId`, which throws (the exception text is
   * `typeError`) when the request has none.
   */
  function EndGameReplyAsWritten(req: EndGameRequest, result: int, typeError: string): (reply: Json)
    ensures req.gameId.None? ==> reply == ErrorReply(MissingFields)
    ensures IsSuccess(reply) <==> req.gameId.Some? && result != 0 && req.roomId.Some?
  {
    if req.gameId.None? then ErrorReply(MissingFields)
    else if result == 0 then ErrorReply("Failed to game end update")
    else if req.roomId.None? then ErrorReply("Error end game : " + typeError)
    else SuccessReply("The game is ended successfully", map["action" := JStr("gameEnd")])
  }

  /** The reply of `endGame` with -1, the repository's failure answer, read as a failure. */
  function EndGameReply(req: EndGameRequest, result: int, typeError: string): (reply: Json)
    ensures req.gameId.None? ==> reply == ErrorReply(MissingFields)
    ensures req.gameId.Some? && result == -1 ==> reply == ErrorReply("Failed to game end update")
    ensures IsSuccess(reply) <==> req.gameId.Some? && result != -1 && req.roomId.Some?
  {
    if req.gameId.None? then ErrorReply(MissingFields)
    else if result == -1 then ErrorReply("Failed to game end update")
    else if req.roomId.None? then ErrorReply("Error end game : " + typeError)
    else SuccessReply("The game is ended successfully", map["action" := JStr("gameEnd")])
  }

  /** A request for a game that does not exist: the repository answers -1, which the code as written reports as a success. */
  lemma EndGameFinding()
    ensures var req := EndGameRequest(Some(7), Some(1));
      IsSuccess(EndGameReplyAsWritten(req, -1, "")) && !IsSuccess(EndGameReply(req, -1, ""))
  {
  }

  /**
   * `startGame`: missing ids, then `createGame`; a success names the new
   * game, whose room is now in progress.
   */
  method StartGame(db: MatchDb, req: StartGameRequest, fault: bool, burned: bool) returns (reply: Json)
    modifies db
    ensures IsSuccess(reply) <==> req.roomId.Some? && req.mapId.Some? && !fault && req.roomId.value in old(db.rooms)
    ensures IsSuccess(reply) ==>
      Get(reply, "gameId") == Some(JNum(old(db.nextGameId))) &&
      db.games == old(db.games)[old(db.nextGameId) := Game(req.roomId.value, req.mapId.value, false)] &&
      db.rooms == old(db.rooms)[req.roomId.value := old(db.rooms)[req.roomId.value].(status := InProgress)]
    ensures !IsSuccess(reply) ==> db.games == old(db.games) && db.rooms == old(db.rooms)
    ensures db.nextGameId ==
      if req.roomId.Some? && req.mapId.Some? && (!fault || burned) then old(db.nextGameId) + 1 else old(db.nextGameId)
    ensures db.members == old(db.members)
  {
    if req.roomId.None? || req.mapId.None? {
      return ErrorReply(MissingFields);
    }
    var gameId := db.CreateGame(req.roomId.value, req.mapId.value, fault, burned);
    reply := StartGameReply(req, gameId);
  }

  /** The tables after a successful `endGame` of game `gameId`. */
  predicate Ended(db0rooms: map<nat, Room>, db0games: map<nat, Game>, rooms: map<nat, Room>, games: map<nat, Game>, gameId: int)
  {
    gameId in db0games && db0games[gameId].roomId in db0rooms &&
    games == db0games[gameId := db0games[gameId].(completed := true)] &&
    rooms == db0rooms[db0games[gameId].roomId := db0rooms[db0games[gameId].roomId].(status := Waiting)]
  }

  /**
   * `endGame` with the test as written: when the statement fails, nothing
   * changes, and the reply is still a success.
   */
  method EndGameAsWritten(db: MatchDb, req: EndGameRequest, fault: bool, typeError: string) returns (reply: Json)
    modifies db
    ensures req.gameId.Some? && req.roomId.Some? && fault ==>
      IsSuccess(reply) && db.games == old(db.games) && db.rooms == old(db.rooms)
    ensures db.members == old(db.members) && db.nextGameId == old(db.nextGameId)
  {
    if req.gameId.None? {
      return ErrorReply(MissingFields);
    }
    var result := db.EndGame(req.gameId.value, fault);
    reply := EndGameReplyAsWritten(req, result, typeError);
  }

  /**
   * `endGame`: a missing id, then the repository; a success is reported
   * exactly when the game and its room exist and were updated. A request
   * without `roomId` still ends the game, and the reply is the error of the
   * log line that reads it.
   */
  method EndGame(db: MatchDb, req: EndGameRequest, fault: bool, typeError: string) returns (reply: Json)
    modifies db
    ensures var done := req.gameId.Some? && !fault && Ended(old(db.rooms), old(db.games), db.rooms, db.games, req.gameId.value);
      (IsSuccess(reply) <==> done && req.roomId.Some?) &&
      (done && req.roomId.None? ==> reply == ErrorReply("Error end game : " + typeError)) &&
      (!done ==> db.rooms == old(db.rooms) && db.games == old(db.games))
    ensures db.members == old(db.members) && db.nextGameId == old(db.nextGameId)
  {
    if req.gameId.None? {
      return ErrorReply(MissingFields);
    }
    var result := db.EndGame(req.gameId.value, fault);
    reply := EndGameReply(req, result, typeError);
  }
}
