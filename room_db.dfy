/**
 * The matching server's `rooms`, `room_users` and `games` tables and the
 * repository methods over them (RoomRepositoryImpl, GameRepositoryImpl).
 *
 * A room's status goes TERMINATED -> WAITING (`create`) -> GAME_IN_PROGRESS
 * (`createGame`) -> WAITING (`endGame`), and back to TERMINATED when its
 * last member leaves (`removePlayer`). Each method runs in one transaction:
 * a guard that fails aborts it, and so does a database exception, which the
 * methods receive as the flag `fault`; either way no table changes. Room and
 * game ids are SERIAL keys, so the tables are keyed by `nat`.
 */
module RoomDb {
  import opened Wrappers

  datatype RoomStatus = Terminated | Waiting | InProgress

  datatype Room = Room(name: string, hostId: int, maxPlayers: int, status: RoomStatus, ipAddress: string, port: int)

  /** One `room_users` row. */
  datatype Membership = Membership(roomId: int, userId: int)

  datatype Game = Game(roomId: int, mapId: int, completed: bool)

  // ------------------------------------------------------------ table queries

  /** `SELECT COUNT(*) FROM room_users WHERE room_id = r`. */
  function Count(members: seq<Membership>, roomId: int): nat
  {
    if |members| == 0 then 0
    else Count(members[..|members| - 1], roomId) + (if members[|members| - 1].roomId == roomId then 1 else 0)
  }

  predicate IsMember(members: seq<Membership>, roomId: int, userId: int)
  {
    Membership(roomId, userId) in members
  }

  /** The room of the first `room_users` row of the user, in table order. */
  function FirstRoomOf(members: seq<Membership>, userId: int): (r: Option<int>)
    ensures r.None? <==> forall i :: 0 <= i < |members| ==> members[i].userId != userId
    ensures r.Some? ==> IsMember(members, r.value, userId)
  {
    if |members| == 0 then None
    else if members[0].userId == userId then Some(members[0].roomId)
    else
      var r := FirstRoomOf(members[1..], userId);
      assert forall i :: 1 <= i < |members| ==> members[i] == members[1..][i - 1];
      r
  }

  /** `DELETE FROM room_users WHERE user_id = u`: the other rows, in order. */
  function Without(members: seq<Membership>, userId: int): seq<Membership>
  {
    if |members| == 0 then []
    else
      var rest := Without(members[..|members| - 1], userId);
      if members[|members| - 1].userId == userId then rest else rest + [members[|members| - 1]]
  }

  predicate NoDuplicates(members: seq<Membership>)
  {
    forall i, j :: 0 <= i < j < |members| ==> members[i] != members[j]
  }

  /**
   * What every method keeps: each membership is in an existing room that is
   * not TERMINATED, no row is repeated, and no room with members holds more
   * than its maximum.
   */
  predicate Valid(rooms: map<nat, Room>, members: seq<Membership>)
  {
    (forall m :: m in members ==> m.roomId in rooms && rooms[m.roomId].status != Terminated) &&
    NoDuplicates(members) &&
    (forall r :: r in rooms && Count(members, r) > 0 ==> Count(members, r) <= rooms[r].maxPlayers)
  }

  // -------------------------------------------------------------- table lemmas

  lemma {:induction false} CountAppend(members: seq<Membership>, m: Membership, roomId: int)
    ensures Count(members + [m], roomId) == Count(members, roomId) + (if m.roomId == roomId then 1 else 0)
  {
    assert (members + [m])[..|members|] == members;
  }

  /** A room with no counted row has no row at all. */
  lemma {:induction false} CountZero(members: seq<Membership>, roomId: int)
    ensures Count(members, roomId) == 0 <==> forall m :: m in members ==> m.roomId != roomId
    decreases |members|
  {
    if |members| > 0 {
      var init := members[..|members| - 1];
      CountZero(init, roomId);
      assert members == init + [members[|members| - 1]];
    }
  }

  /** The rows left by a delete are exactly the rows of other users, in their order. */
  lemma {:induction false} WithoutSpec(members: seq<Membership>, userId: int)
    ensures forall m :: m in Without(members, userId) <==> m in members && m.userId != userId
    ensures |Without(members, userId)| <= |members|
    decreases |members|
  {
    if |members| > 0 {
      WithoutSpec(members[..|members| - 1], userId);
      assert members == members[..|members| - 1] + [members[|members| - 1]];
    }
  }

  /** Deleting a user's rows lowers a room's count by the user's membership in it, and by nothing else. */
  lemma {:induction false} CountWithout(members: seq<Membership>, userId: int, roomId: int)
    requires NoDuplicates(members)
    ensures Count(Without(members, userId), roomId) == Count(members, roomId) - (if IsMember(members, roomId, userId) then 1 else 0)
    decreases |members|
  {
    if |members| > 0 {
      var init := members[..|members| - 1];
      var last := members[|members| - 1];
      CountWithout(init, userId, roomId);
      assert members == init + [last];
      assert IsMember(members, roomId, userId) <==> IsMember(init, roomId, userId) || last == Membership(roomId, userId);
      if last == Membership(roomId, userId) {
        assert !IsMember(init, roomId, userId);
      }
      if last.userId != userId {
        CountAppend(Without(init, userId), last, roomId);
      }
    }
  }

  lemma {:induction false} WithoutNoDuplicates(members: seq<Membership>, userId: int)
    requires NoDuplicates(members)
    ensures NoDuplicates(Without(members, userId))
    decreases |members|
  {
    if |members| > 0 {
      var init := members[..|members| - 1];
      WithoutNoDuplicates(init, userId);
      WithoutSpec(init, userId);
      assert forall i :: 0 <= i < |init| ==> init[i] != members[|members| - 1];
    }
  }

  // ----------------------------------------------------------- transitions

  /** `create`: reactivate a TERMINATED room. */
  predicate CanCreate(rooms: map<nat, Room>, roomId: int)
  {
    roomId in rooms && rooms[roomId].status == Terminated
  }

  function Reactivated(room: Room, hostId: int, name: string, maxPlayers: int): Room
  {
    room.(name := name, hostId := hostId, maxPlayers := maxPlayers, status := Waiting)
  }

  /** `addPlayer`'s guards, in the order the method checks them. */
  datatype JoinRefusal = NoSuchRoom | NotWaiting | AlreadyJoined | Full

  function JoinCheck(rooms: map<nat, Room>, members: seq<Membership>, roomId: int, userId: int): Option<JoinRefusal>
  {
    if roomId !in rooms then Some(NoSuchRoom)
    else if rooms[roomId].status != Waiting then Some(NotWaiting)
    else if IsMember(members, roomId, userId) then Some(AlreadyJoined)
    else if Count(members, roomId) >= rooms[roomId].maxPlayers then Some(Full)
    else None
  }

  /** A join is accepted exactly when the room waits, the user is not in it yet and a seat is free. */
  lemma JoinCheckSpec(rooms: map<nat, Room>, members: seq<Membership>, roomId: int, userId: int)
    ensures JoinCheck(rooms, members, roomId, userId).None? <==>
      roomId in rooms && rooms[roomId].status == Waiting && !IsMember(members, roomId, userId) &&
      Count(members, roomId) < rooms[roomId].maxPlayers
  {
  }

  /** `removePlayer` after the delete: the first room becomes TERMINATED when nobody is left in it. */
  function AfterLeave(rooms: map<nat, Room>, members: seq<Membership>, roomId: int): map<nat, Room>
  {
    if Count(members, roomId) == 0 && roomId in rooms then rooms[roomId := rooms[roomId].(status := Terminated)]
    else rooms
  }

  // --------------------------------------------------- invariant preservation

  lemma CreateKeepsValid(rooms: map<nat, Room>, members: seq<Membership>, hostId: int, roomId: int, name: string,
                         maxPlayers: int)
    requires Valid(rooms, members) && CanCreate(rooms, roomId)
    ensures Valid(rooms[roomId := Reactivated(rooms[roomId], hostId, name, maxPlayers)], members)
  {
    CountZero(members, roomId);
  }

  lemma JoinKeepsValid(rooms: map<nat, Room>, members: seq<Membership>, roomId: int, userId: int)
    requires Valid(rooms, members) && JoinCheck(rooms, members, roomId, userId).None?
    ensures Valid(rooms, members + [Membership(roomId, userId)])
  {
    var m := Membership(roomId, userId);
    forall r | r in rooms
      ensures Count(members + [m], r) == Count(members, r) + (if r == roomId then 1 else 0)
    {
      CountAppend(members, m, r);
    }
    var ms := members + [m];
    forall i, j | 0 <= i < j < |ms| ensures ms[i] != ms[j] {
      if j == |members| {
        assert ms[i] in members;
      }
    }
  }

  /**
   * Deleting a user's rows and terminating the first room when it empties
   * keeps the invariant; the user then belongs to no room.
   */
  lemma LeaveKeepsValid(rooms: map<nat, Room>, members: seq<Membership>, userId: int, roomId: int)
    requires Valid(rooms, members)
    ensures var left := Without(members, userId);
      Valid(AfterLeave(rooms, left, roomId), left) && forall m :: m in left ==> m.userId != userId
  {
    var left := Without(members, userId);
    WithoutSpec(members, userId);
    WithoutNoDuplicates(members, userId);
    LeaveRowsValid(rooms, members, userId, roomId);
    forall r | r in rooms ensures Count(left, r) <= Count(members, r) {
      CountWithout(members, userId, r);
    }
  }

  lemma LeaveRowsValid(rooms: map<nat, Room>, members: seq<Membership>, userId: int, roomId: int)
    requires Valid(rooms, members)
    ensures var left := Without(members, userId);
      var after := AfterLeave(rooms, left, roomId);
      forall m :: m in left ==> m.roomId in after && after[m.roomId].status != Terminated
  {
    var left := Without(members, userId);
    WithoutSpec(members, userId);
    CountZero(left, roomId);
  }

  /** A room that changes status for a game keeps every membership valid. */
  lemma StatusKeepsValid(rooms: map<nat, Room>, members: seq<Membership>, roomId: int, s: RoomStatus)
    requires Valid(rooms, members) && roomId in rooms && s != Terminated
    ensures Valid(rooms[roomId := rooms[roomId].(status := s)], members)
  {
  }

  // ------------------------------------------------------------------ the class

  class MatchDb {
    var rooms: map<nat, Room>
    var members: seq<Membership>
    var games: map<nat, Game>
    /** The next value of the `game_id` sequence. */
    var nextGameId: nat

    constructor(rooms: map<nat, Room>)
      ensures this.rooms == rooms && members == [] && games == map[] && nextGameId == 1
      ensures Valid(this.rooms, members)
    {
      this.rooms := rooms;
      members := [];
      games := map[];
      nextGameId := 1;
    }

    /**
     * `findValidRoom`: the smallest id of a TERMINATED room, or -1 when
     * there is none or the query fails.
     */
    method FindValidRoom(fault: bool) returns (r: int)
      ensures fault ==> r == -1
      ensures !fault ==>
        (r == -1 && forall id :: id in rooms ==> rooms[id].status != Terminated) ||
        (r in rooms && rooms[r].status == Terminated && forall id :: id in rooms && rooms[id].status == Terminated ==> r <= id)
    {
      if fault {
        return -1;
      }
      var pending := rooms.Keys;
      var found: Option<int> := None;
      while pending != {}
        invariant pending <= rooms.Keys
        invariant found.Some? ==> found.value in rooms && rooms[found.value].status == Terminated
        invariant forall id :: id in rooms.Keys - pending && rooms[id].status == Terminated ==>
          found.Some? && found.value <= id
        decreases pending
      {
        var id :| id in pending;
        if rooms[id].status == Terminated && (found.None? || id < found.value) {
          found := Some(id);
        }
        pending := pending - {id};
      }
      return if found.Some? then found.value else -1;
    }

    /** `create`: reactivate a TERMINATED room with its new name, host and maximum. */
    method Create(hostId: int, roomId: int, name: string, maxPlayers: int, fault: bool) returns (ok: bool)
      modifies this
      ensures ok == (!fault && CanCreate(old(rooms), roomId))
      ensures rooms == if ok then old(rooms)[roomId := Reactivated(old(rooms)[roomId], hostId, name, maxPlayers)]
                       else old(rooms)
      ensures members == old(members) && games == old(games) && nextGameId == old(nextGameId)
    {
      if fault || !CanCreate(rooms, roomId) {
        return false;
      }
      rooms := rooms[roomId := Reactivated(rooms[roomId], hostId, name, maxPlayers)];
      return true;
    }

    /** `addPlayer`: one more row when every guard passes. */
    method AddPlayer(roomId: int, userId: int, fault: bool) returns (ok: bool)
      modifies this
      ensures ok == (!fault && JoinCheck(old(rooms), old(members), roomId, userId).None?)
      ensures members == if ok then old(members) + [Membership(roomId, userId)] else old(members)
      ensures rooms == old(rooms) && games == old(games) && nextGameId == old(nextGameId)
    {
      if fault || JoinCheck(rooms, members, roomId, userId).Some? {
        return false;
      }
      members := members + [Membership(roomId, userId)];
      return true;
    }

    /**
     * `removePlayer`: false when the user is in no room. Otherwise every row
     * of the user goes, and the room of the first row becomes TERMINATED when
     * nobody is left in it.
     */
    method RemovePlayer(userId: int, fault: bool) returns (ok: bool)
      modifies this
      ensures ok == (!fault && FirstRoomOf(old(members), userId).Some?)
      ensures members == if ok then Without(old(members), userId) else old(members)
      ensures rooms == if ok then AfterLeave(old(rooms), members, FirstRoomOf(old(members), userId).value) else old(rooms)
      ensures games == old(games) && nextGameId == old(nextGameId)
    {
      if fault {
        return false;
      }
      var first := FirstRoomOf(members, userId);
      if first.None? {
        return false;
      }
      members := Without(members, userId);
      rooms := AfterLeave(rooms, members, first.value);
      return true;
    }

    /** `getPlayerCount`: the room's rows, or -1 when the query fails. */
    method GetPlayerCount(roomId: int, fault: bool) returns (n: int)
      ensures n == if fault then -1 else Count(members, roomId)
    {
      if fault {
        return -1;
      }
      return Count(members, roomId);
    }

    /**
     * `createGame`: a new game row for an existing room, whose status turns
     * GAME_IN_PROGRESS; its id is returned. -1 and no change to the tables
     * when the room does not exist or the statement fails. The insert comes
     * first and draws the serial, which the rollback does not return: it is
     * used up unless the failure came before it (`fault` without `burned`).
     */
    method CreateGame(roomId: int, mapId: int, fault: bool, burned: bool) returns (gameId: int)
      modifies this
      ensures gameId == if fault || roomId !in old(rooms) then -1 else old(nextGameId)
      ensures gameId != -1 ==>
        games == old(games)[gameId := Game(roomId, mapId, false)] &&
        rooms == old(rooms)[roomId := old(rooms)[roomId].(status := InProgress)]
      ensures gameId == -1 ==> games == old(games) && rooms == old(rooms)
      ensures nextGameId == if fault && !burned then old(nextGameId) else old(nextGameId) + 1
      ensures members == old(members)
    {
      if fault || roomId !in rooms {
        if !fault || burned {
          nextGameId := nextGameId + 1;
        }
        return -1;
      }
      gameId := nextGameId;
      games := games[gameId := Game(roomId, mapId, false)];
      nextGameId := nextGameId + 1;
      rooms := rooms[roomId := rooms[roomId].(status := InProgress)];
    }

    /**
     * `endGame`: the game is COMPLETED and its room WAITING again; the room's
     * id is returned. -1 and no change when the game or its room is missing.
     */
    method EndGame(gameId: int, fault: bool) returns (roomId: int)
      modifies this
      ensures var ok := !fault && gameId in old(games) && old(games)[gameId].roomId in old(rooms);
        (roomId == if ok then old(games)[gameId].roomId else -1) &&
        (games == if ok then old(games)[gameId := old(games)[gameId].(completed := true)] else old(games)) &&
        (rooms == if ok then old(rooms)[roomId := old(rooms)[roomId].(status := Waiting)] else old(rooms))
      ensures members == old(members) && nextGameId == old(nextGameId)
    {
      if fault || gameId !in games {
        return -1;
      }
      var r := games[gameId].roomId;
      if r !in rooms {
        return -1;
      }
      games := games[gameId := games[gameId].(completed := true)];
      rooms := rooms[r := rooms[r].(status := Waiting)];
      return r;
    }
  }

  /** The last member leaving a room terminates it. */
  lemma LastMemberTerminates(rooms: map<nat, Room>, members: seq<Membership>, userId: int)
    requires Valid(rooms, members)
    requires FirstRoomOf(members, userId).Some?
    requires Count(members, FirstRoomOf(members, userId).value) == 1
    ensures var roomId := FirstRoomOf(members, userId).value;
      AfterLeave(rooms, Without(members, userId), roomId)[roomId].status == Terminated
  {
    var roomId := FirstRoomOf(members, userId).value;
    CountWithout(members, userId, roomId);
    CountZero(members, roomId);
  }

  /** A room that keeps members after the leave keeps its status. */
  lemma OthersStay(rooms: map<nat, Room>, members: seq<Membership>, userId: int)
    requires Valid(rooms, members)
    requires FirstRoomOf(members, userId).Some?
    requires Count(members, FirstRoomOf(members, userId).value) > 1
    ensures AfterLeave(rooms, Without(members, userId), FirstRoomOf(members, userId).value) == rooms
  {
    CountWithout(members, userId, FirstRoomOf(members, userId).value);
  }
}
