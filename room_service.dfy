/**
 * The room services of the matching server and of the game socket server:
 * the byte-class check on room names, the order in which `createRoom`,
 * `joinRoom` and `exitRoom` validate a request, and the replies they build.
 *
 * Requests arrive as typed records whose absent fields are `None`. The
 * matching server's service runs against the `MatchDb` tables; the game
 * socket server's repository is not part of this model, so its answers are
 * parameters.
 */
module RoomService {
  import opened Wrappers
  import opened Json
  import opened RoomDb

  // ---------------------------------------------------------------- room names

  /** The byte a character of a `std::string` holds, read as `unsigned char`. */
  function ByteOf(c: char): bv8
  {
    ((c as int) % 256) as bv8
  }

  predicate IsAsciiAlnumSpace(b: bv8)
  {
    (0x41 <= b <= 0x5A) || (0x61 <= b <= 0x7A) || (0x30 <= b <= 0x39) || b == 0x20
  }

  /** One byte of a name: an ASCII letter, digit or space, a three-byte UTF-8 lead byte, or a continuation byte. */
  predicate AllowedByte(b: bv8)
  {
    IsAsciiAlnumSpace(b) || (b & 0xF0) == 0xE0 || (b & 0xC0) == 0x80
  }

  /** `isValidRoomName`: 1 to 40 bytes, each of them allowed. */
  predicate ValidRoomName(name: string)
  {
    0 < |name| <= 40 && forall i :: 0 <= i < |name| ==> AllowedByte(ByteOf(name[i]))
  }

  /** The two masks accept exactly the byte ranges 0xE0-0xEF and 0x80-0xBF. */
  lemma AllowedByteRanges(b: bv8)
    ensures AllowedByte(b) <==> IsAsciiAlnumSpace(b) || (0xE0 <= b <= 0xEF) || (0x80 <= b <= 0xBF)
  {
  }

  /**
   * The validator looks at one byte at a time, so a name made of a lone UTF-8
   * continuation byte, which is not valid UTF-8, is accepted.
   */
  lemma LoneContinuationAccepted()
    ensures ValidRoomName([0x80 as char])
  {
    assert ByteOf(0x80 as char) == 0x80;
  }

  /** The loop of `isValidRoomName`. */
  method IsValidRoomName(name: string) returns (ok: bool)
    ensures ok == ValidRoomName(name)
  {
    if |name| == 0 {
      return false;
    }
    if |name| > 40 {
      return false;
    }
    var i := 0;
    while i < |name|
      invariant 0 <= i <= |name|
      invariant forall j :: 0 <= j < i ==> AllowedByte(ByteOf(name[j]))
    {
      var c := ByteOf(name[i]);
      if (c >= 0x41 && c <= 0x5A) || (c >= 0x61 && c <= 0x7A) || (c >= 0x30 && c <= 0x39) || c == 0x20 {
        i := i + 1;
        continue;
      }
      if (c & 0xF0) == 0xE0 {
        i := i + 1;
        continue;
      }
      if (c & 0xC0) == 0x80 {
        i := i + 1;
        continue;
      }
      return false;
    }
    return true;
  }

  // ---------------------------------------------------------------- requests

  datatype CreateRoomRequest = CreateRoomRequest(roomName: Option<string>, userId: Option<int>, maxPlayers: Option<int>)
  datatype JoinRoomRequest = JoinRoomRequest(roomId: Option<int>, userId: Option<int>)
  datatype ExitRoomRequest = ExitRoomRequest(userId: Option<int>)

  const MissingFields := "Missing required fields in request"
  const BadRoomName := "Room name must be 1-40 bytes long and contain only English, Korean, or numbers"
  const BadMaxPlayers := "Max players must be between 2 and 8"

  /** The validations both servers run before touching a repository, in their order; `None` when all pass. */
  function CreateCheck(req: CreateRoomRequest): (r: Option<string>)
    ensures r.None? <==>
      req.roomName.Some? && req.userId.Some? && req.maxPlayers.Some? &&
      ValidRoomName(req.roomName.value) && 2 <= req.maxPlayers.value <= 8
    ensures r == Some(MissingFields) <==> req.roomName.None? || req.userId.None? || req.maxPlayers.None?
  {
    if req.roomName.None? || req.userId.None? || req.maxPlayers.None? then Some(MissingFields)
    else if !ValidRoomName(req.roomName.value) then Some(BadRoomName)
    else if req.maxPlayers.value < 2 || req.maxPlayers.value > 8 then Some(BadMaxPlayers)
    else None
  }

  /** What `createRoomWithHost` answers in the matching server. */
  datatype HostResult = HostResult(roomId: int, ipAddress: string, port: int)

  /**
   * The matching server's `createRoom`: the validations, then one call that
   * creates the room with its host; -1 as the room id is a failure, and a
   * success copies the room id, address and port into the reply.
   */
  function MsCreateRoom(req: CreateRoomRequest, host: HostResult): (reply: Json)
    ensures CreateCheck(req).Some? ==> reply == ErrorReply(CreateCheck(req).value)
    ensures IsSuccess(reply) <==> CreateCheck(req).None? && host.roomId != -1
    ensures IsSuccess(reply) ==>
      Get(reply, "roomId") == Some(JNum(host.roomId)) && Get(reply, "ipAddress") == Some(JStr(host.ipAddress)) &&
      Get(reply, "port") == Some(JNum(host.port))
  {
    var check := CreateCheck(req);
    if check.Some? then ErrorReply(check.value)
    else if host.roomId == -1 then ErrorReply("Failed to create room")
    else SuccessReply("Room successfully created",
                      map["roomId" := JNum(host.roomId), "ipAddress" := JStr(host.ipAddress), "port" := JNum(host.port)])
  }

  /**
   * The game socket server's `createRoom`: the validations, then
   * `findValidRoom`, `create` and `addPlayer` of the host, whose answers
   * are the parameters.
   */
  function GsCreateRoom(req: CreateRoomRequest, validRoom: int, created: bool, hostAdded: bool): (reply: Json)
    ensures CreateCheck(req).Some? ==> reply == ErrorReply(CreateCheck(req).value)
    ensures IsSuccess(reply) <==> CreateCheck(req).None? && created && hostAdded
    ensures IsSuccess(reply) ==>
      Get(reply, "roomId") == Some(JNum(validRoom)) && Get(reply, "roomName") == Some(JStr(req.roomName.value))
  {
    var check := CreateCheck(req);
    if check.Some? then ErrorReply(check.value)
    else if !created then ErrorReply("Failed to create room")
    else if !hostAdded then ErrorReply("Failed to add room creator to room")
    else SuccessReply("Room successfully created", map["roomId" := JNum(validRoom), "roomName" := JStr(req.roomName.value)])
  }

  /**
   * The game socket server's `joinRoom`: missing ids, then `addPlayer`;
   * a success carries the room id, the player count and the players.
   */
  function GsJoinRoom(req: JoinRoomRequest, added: bool, currentPlayers: int, players: seq<int>): (reply: Json)
    ensures req.roomId.None? || req.userId.None? ==> reply == ErrorReply(MissingFields)
    ensures IsSuccess(reply) <==> req.roomId.Some? && req.userId.Some? && added
    ensures IsSuccess(reply) ==>
      Get(reply, "roomId") == Some(JNum(req.roomId.value)) && Get(reply, "currentPlayers") == Some(JNum(currentPlayers))
  {
    if req.roomId.None? || req.userId.None? then ErrorReply(MissingFields)
    else if !added then ErrorReply("Failed to join room - room may be full or not in WAITING state")
    else SuccessReply("Successfully joined room",
                      map["roomId" := JNum(req.roomId.value), "currentPlayers" := JNum(currentPlayers),
                          "players" := JArr(seq(|players|, i requires 0 <= i < |players| => JNum(players[i])))])
  }

  /** The game socket server's `exitRoom`: a missing id, then `removePlayer`. */
  function GsExitRoom(req: ExitRoomRequest, removed: bool): (reply: Json)
    ensures req.userId.None? ==> reply == ErrorReply("Missing userId in request")
    ensures IsSuccess(reply) <==> req.userId.Some? && removed
    ensures req.userId.Some? && !removed ==> reply == ErrorReply("User not found in any room")
  {
    if req.userId.None? then ErrorReply("Missing userId in request")
    else if !removed then ErrorReply("User not found in any room")
    else SuccessReply("Successfully exited room", map[])
  }

  // ------------------------------------------------ matching server, stateful

  /**
   * The matching server's `joinRoom`: missing ids, then `addPlayer` on the
   * tables. A success leaves the user a member of the room.
   */
  method MsJoinRoom(db: MatchDb, req: JoinRoomRequest, fault: bool) returns (reply: Json)
    modifies db
    ensures IsSuccess(reply) <==>
      req.roomId.Some? && req.userId.Some? && req.roomId.value >= 0 && !fault &&
      JoinCheck(old(db.rooms), old(db.members), req.roomId.value, req.userId.value).None?
    ensures IsSuccess(reply) ==> db.members == old(db.members) + [Membership(req.roomId.value, req.userId.value)]
    ensures !IsSuccess(reply) ==> db.members == old(db.members)
    ensures db.rooms == old(db.rooms) && db.games == old(db.games) && db.nextGameId == old(db.nextGameId)
  {
    if req.roomId.None? || req.userId.None? {
      return ErrorReply(MissingFields);
    }
    var ok := db.AddPlayer(req.roomId.value, req.userId.value, fault);
    if !ok {
      return ErrorReply("Failed to join room - room may be full or not in WAITING state");
    }
    return SuccessReply("Successfully joined room", map[]);
  }

  /**
   * The matching server's `exitRoom`: a missing id, then `removePlayer`;
   * "User not found in any room" when the user has no membership.
   */
  method MsExitRoom(db: MatchDb, req: ExitRoomRequest, fault: bool) returns (reply: Json)
    modifies db
    ensures IsSuccess(reply) <==> req.userId.Some? && !fault && FirstRoomOf(old(db.members), req.userId.value).Some?
    ensures req.userId.None? ==> reply == ErrorReply("Missing userId in request")
    ensures IsSuccess(reply) ==> db.members == Without(old(db.members), req.userId.value)
    ensures !IsSuccess(reply) ==> db.members == old(db.members) && db.rooms == old(db.rooms)
    ensures db.games == old(db.games) && db.nextGameId == old(db.nextGameId)
  {
    if req.userId.None? {
      return ErrorReply("Missing userId in request");
    }
    var ok := db.RemovePlayer(req.userId.value, fault);
    if !ok {
      return ErrorReply("User not found in any room");
    }
    return SuccessReply("Successfully exited room", map[]);
  }
}
