/**
 * The matching server's connection layer: the server's table from session
 * tokens to sessions, and a session's handling of its handshake and of each
 * request. A session is known by a number; tokens are supplied by the
 * caller (the server draws them from a UUID generator). The controllers are
 * parameters from a request to a reply, `None` when the controller throws.
 */
module MatchingSession {
  import opened Wrappers
  import opened Json
  import Clock

  // ------------------------------------------------------------ token table

  /** No session is registered under two tokens. */
  predicate OneTokenEach(sessions: map<string, nat>)
  {
    forall t, u :: t in sessions && u in sessions && sessions[t] == sessions[u] ==> t == u
  }

  /**
   * `registerSession`'s effect: one entry of the session, if it has any,
   * is dropped, then the session is entered under `token`.
   */
  predicate Registered(old0: map<string, nat>, new0: map<string, nat>, session: nat, token: string)
  {
    ((forall u :: u in old0 ==> old0[u] != session) && new0 == old0[token := session]) ||
    (exists dropped :: dropped in old0 && old0[dropped] == session && new0 == (old0 - {dropped})[token := session])
  }

  class Server {
    var sessions: map<string, nat>

    constructor()
      ensures sessions == map[]
    {
      sessions := map[];
    }

    /**
     * `registerSession`: drop one earlier entry of the session, whichever
     * the hash map meets first, then register it under `token`.
     */
    method RegisterSession(session: nat, token: string) returns (t: string)
      modifies this
      ensures t == token && token in sessions && sessions[token] == session
      ensures Registered(old(sessions), sessions, session, token)
    {
      if u :| u in sessions && sessions[u] == session {
        sessions := sessions - {u};
      }
      sessions := sessions[token := session];
      return token;
    }

    /** `removeSession`: erase `token`, if present. */
    method RemoveSession(token: string)
      modifies this
      ensures sessions == old(sessions) - {token}
    {
      if token in sessions {
        sessions := sessions - {token};
      }
    }

    /** `getSession`: the session of `token`, or none. */
    method GetSession(token: string) returns (s: Option<nat>)
      ensures s.Some? <==> token in sessions
      ensures s.Some? ==> s.value == sessions[token]
    {
      if token in sessions {
        return Some(sessions[token]);
      }
      return None;
    }

    /** `stop`: every session is forgotten. */
    method Stop()
      modifies this
      ensures sessions == map[]
    {
      sessions := map[];
    }
  }

  /**
   * Registering keeps one token per session: the session's earlier entry is
   * the one dropped, and the new token replaces whatever it named.
   */
  lemma RegisterKeepsOneToken(old0: map<string, nat>, new0: map<string, nat>, session: nat, token: string)
    requires OneTokenEach(old0) && Registered(old0, new0, session, token)
    ensures OneTokenEach(new0) && token in new0 && new0[token] == session
    ensures forall u :: u in new0 && new0[u] == session ==> u == token
  {
    if exists dropped :: dropped in old0 && old0[dropped] == session && new0 == (old0 - {dropped})[token := session] {
      var dropped :| dropped in old0 && old0[dropped] == session && new0 == (old0 - {dropped})[token := session];
      forall u | u in new0 && u != token
        ensures new0[u] != session
      {
        assert u in old0 && u != dropped && new0[u] == old0[u];
      }
    } else {
      forall u | u in new0 && u != token
        ensures new0[u] != session
      {
        assert u in old0 && new0[u] == old0[u];
      }
    }
  }

  // -------------------------------------------------------------- routing

  const AuthActions: set<string> := {"register", "login", "SSAFYlogin", "updateNickName"}
  const RoomActions: set<string> := {"createRoom", "joinRoom", "exitRoom", "listRooms"}
  const GameActions: set<string> := {"gameStart", "gameEnd"}

  /** What `process_request` does with an action. */
  datatype Route =
    | Forward(kind: string, inject: bool)
    | AuthRequired
    | Ping
    | Logout
    | Capacity
    | Ccu
    | Unknown

  /**
   * The routing chain: auth actions go to "auth", carrying the user id only
   * once there is one; room and game actions need a user id and always
   * carry it; four more actions the session answers itself.
   */
  function RouteOf(action: string, userId: int): (r: Route)
    ensures (r.Forward? && r.kind == "auth") <==> action in AuthActions
    ensures (r.Forward? && r.kind == "room") <==> action in RoomActions && userId != 0
    ensures (r.Forward? && r.kind == "game") <==> action in GameActions && userId != 0
    ensures r.Forward? ==> r.inject == (userId != 0)
    ensures r.AuthRequired? <==> (action in RoomActions || action in GameActions) && userId == 0
    ensures r.Unknown? <==>
      action !in AuthActions && action !in RoomActions && action !in GameActions &&
      action !in {"alivePing", "logout", "roomCapacity", "CCU"}
  {
    if action in AuthActions then Forward("auth", userId != 0)
    else if action in RoomActions then (if userId == 0 then AuthRequired else Forward("room", true))
    else if action in GameActions then (if userId == 0 then AuthRequired else Forward("game", true))
    else if action == "alivePing" then Ping
    else if action == "logout" then Logout
    else if action == "roomCapacity" then Capacity
    else if action == "CCU" then Ccu
    else Unknown
  }

  /** `request["userId"] = user_id_` when the route says so. */
  function Forwarded(request: Json, inject: bool, userId: int): (r: Json)
    ensures inject ==> GetInt(r, "userId") == Some(userId)
    ensures !inject ==> r == request
  {
    if inject then Put(request, "userId", JNum(userId)) else request
  }

  /** A controller call: the controller's name and the request it receives. */
  datatype Call = Call(kind: string, request: Json)

  /** What a handshake is taken for. */
  datatype Handshake = Mirror(port: int) | ClientRequest | ClientHello | BadHandshake

  /**
   * A handshake is a mirror server's when its `connectionType` is "mirror"
   * and it has a `port` (a non-number port throws); any other handshake is
   * a client's, which is a request when it has an `action`.
   */
  function ClassifyHandshake(h: Json): (k: Handshake)
    ensures k.Mirror? <==> Get(h, "connectionType") == Some(JStr("mirror")) && GetInt(h, "port").Some?
    ensures k.Mirror? ==> k.port == GetInt(h, "port").value
    ensures k.ClientRequest? <==> !(Get(h, "connectionType") == Some(JStr("mirror")) && Contains(h, "port")) && Contains(h, "action")
  {
    if Get(h, "connectionType") == Some(JStr("mirror")) && Contains(h, "port") then
      (if GetInt(h, "port").Some? then Mirror(GetInt(h, "port").value) else BadHandshake)
    else if Contains(h, "action") then ClientRequest
    else ClientHello
  }

  // ------------------------------------------------------ controller replies

  /** What a session makes of a controller's response: a reply to write back, or a login to take. */
  datatype Verdict = Answer(reply: Json) | LogInAs(uid: int, response: Json)

  const LoginActions: set<string> := {"login", "SSAFYlogin"}

  /** The actions after which `process_request` reads `response["status"]`. */
  const StatusRead: set<string> := {"login", "SSAFYlogin", "createRoom"}

  /**
   * `process_request`'s handling of the response to `action`: a controller
   * that throws, and a response whose status cannot be read (anything but
   * an object or a null), answer "Invalid request format"; reading the
   * status writes a null status into a response without one. A successful
   * login needs an integer `userId` of a user not logged in yet, a
   * successful room creation its mirror server; any other response is sent
   * back as it stands.
   */
  function ControllerVerdict(action: string, response: Option<Json>, loggedIn: set<int>, mirrorFound: bool): Verdict
  {
    if response.None? then Answer(ErrorReply("Invalid request format"))
    else
      var seen := if action in StatusRead then Touch(response.value, "status") else Some(response.value);
      if seen.None? then Answer(ErrorReply("Invalid request format"))
      else
        var r := seen.value;
        if action in LoginActions && IsSuccess(r) then
          var uid := GetInt(r, "userId");
          if uid.None? then Answer(ErrorReply("Invalid request format"))
          else if uid.value in loggedIn then Answer(ErrorReply("Already login user"))
          else LogInAs(uid.value, r)
        else if action == "createRoom" && IsSuccess(r) && !mirrorFound then Answer(ErrorReply("Missing mirror server"))
        else Answer(r)
  }

  /**
   * The verdicts case by case: a throwing controller, or a response other
   * than an object or null after a login or a room creation, gives "Invalid
   * request format"; other actions get their response back unchanged; a
   * successful login response takes its user in iff it carries an id not
   * logged in yet; a successful created room is answered only with its
   * mirror connected; an unsuccessful object response is sent back.
   */
  lemma VerdictCases(action: string, response: Option<Json>, loggedIn: set<int>, mirrorFound: bool)
    ensures var v := ControllerVerdict(action, response, loggedIn, mirrorFound);
      (response.None? ==> v == Answer(ErrorReply("Invalid request format"))) &&
      (response.Some? && action in StatusRead && !response.value.JObj? && !response.value.JNull? ==>
         v == Answer(ErrorReply("Invalid request format"))) &&
      (response.Some? && action !in StatusRead ==> v == Answer(response.value)) &&
      (v.LogInAs? <==>
         (action in LoginActions && response.Some? && response.value.JObj? && IsSuccess(response.value) &&
          GetInt(response.value, "userId").Some? && GetInt(response.value, "userId").value !in loggedIn)) &&
      (v.LogInAs? ==> v.response == response.value && GetInt(v.response, "userId") == Some(v.uid)) &&
      (action in LoginActions && response.Some? && IsSuccess(response.value) && GetInt(response.value, "userId").None? ==>
         v == Answer(ErrorReply("Invalid request format"))) &&
      (action in LoginActions && response.Some? && IsSuccess(response.value) &&
       GetInt(response.value, "userId").Some? && GetInt(response.value, "userId").value in loggedIn ==>
         v == Answer(ErrorReply("Already login user"))) &&
      (action == "createRoom" && response.Some? && IsSuccess(response.value) ==>
         v == if mirrorFound then Answer(response.value) else Answer(ErrorReply("Missing mirror server"))) &&
      (action in StatusRead && response.Some? && Contains(response.value, "status") && !IsSuccess(response.value) ==>
         v == Answer(response.value))
  {
  }

  /**
   * The room controller as written returns `response.dump()`, a JSON
   * string: reading its status throws, so every room creation, though the
   * room row is already written, is answered "Invalid request format".
   */
  lemma CreateRoomStringFinding(dumped: string, loggedIn: set<int>, mirrorFound: bool)
    ensures ControllerVerdict("createRoom", Some(JStr(dumped)), loggedIn, mirrorFound) ==
      Answer(ErrorReply("Invalid request format"))
  {
  }

  /**
   * A room controller returning the service's object: a created room is
   * answered with that object when its mirror server is connected, and
   * with "Missing mirror server" otherwise; a refusal is passed on.
   */
  lemma CreateRoomObjectReply(reply: map<string, Json>, loggedIn: set<int>, mirrorFound: bool)
    requires "status" in reply
    ensures var v := ControllerVerdict("createRoom", Some(JObj(reply)), loggedIn, mirrorFound);
      v == if IsSuccess(JObj(reply)) && !mirrorFound then Answer(ErrorReply("Missing mirror server")) else Answer(JObj(reply))
  {
  }

  // -------------------------------------------------------------- sessions

  class Session {
    const id: nat
    var userId: int
    var userName: string
    var token: string
    var lastActivity: int
    var isMirror: bool
    var mirrorPort: int

    constructor(id: nat, now: int)
      ensures this.id == id && userId == 0 && userName == "" && token == "" && lastActivity == now
      ensures !isMirror
    {
      this.id := id;
      userId := 0;
      userName := "";
      token := "";
      lastActivity := now;
      isMirror := false;
      mirrorPort := 0;
    }

    /** `isActive(timeout)` at time `now`. */
    predicate IsActive(now: int, timeout: int)
      reads this
    {
      Clock.WholeSeconds(now - lastActivity) < timeout
    }

    /** The session stays active while it has been idle for less than `timeout` whole seconds. */
    lemma ActiveWhileRecent(now: int, timeout: int)
      requires now >= lastActivity
      ensures IsActive(now, timeout) <==> now - lastActivity < timeout * Clock.TicksPerSecond
    {
      Clock.ShorterThan(now - lastActivity, timeout);
    }

    /** `handlePing`: the activity time is refreshed and the token echoed. */
    method HandlePing(now: int) returns (reply: Json)
      modifies this
      ensures lastActivity == now && IsActive(now, 1)
      ensures userId == old(userId) && userName == old(userName) && token == old(token)
      ensures isMirror == old(isMirror) && mirrorPort == old(mirrorPort)
      ensures IsSuccess(reply) && Get(reply, "sessionToken") == Some(JStr(token)) && Message(reply) == Some("pong")
    {
      lastActivity := now;
      reply := SuccessReply("pong", map["action" := JStr("refreshSession"), "sessionToken" := JStr(token)]);
    }

    /**
     * `handle_error`'s automatic exit: a session with a positive user id,
     * given a room controller, sends it an `exitRoom` for that user.
     */
    function AutoExit(controllers: set<string>): (c: Option<Call>)
      reads this
      ensures c.Some? <==> "room" in controllers && userId > 0
      ensures c.Some? ==> c.value.kind == "room" && GetStr(c.value.request, "action") == Some("exitRoom") &&
                           GetInt(c.value.request, "userId") == Some(userId)
    {
      if "room" in controllers && userId > 0 then
        Some(Call("room", JObj(map["action" := JStr("exitRoom"), "userId" := JNum(userId)])))
      else None
    }

    /**
     * The handshake: a mirror server's session takes its port as user id,
     * which lets it past the authentication gate; a client's session is
     * registered under `newToken`.
     */
    method ReadHandshake(h: Json, server: Server, newToken: string) returns (kind: Handshake)
      modifies this, server
      ensures kind == ClassifyHandshake(h)
      ensures kind.Mirror? ==> isMirror && mirrorPort == kind.port && userId == kind.port && server.sessions == old(server.sessions)
      ensures (kind.ClientRequest? || kind.ClientHello?) ==>
        token == newToken && newToken in server.sessions && server.sessions[newToken] == id && userId == old(userId)
      ensures kind.BadHandshake? ==> userId == old(userId) && token == old(token) && server.sessions == old(server.sessions)
      ensures userName == old(userName) && lastActivity == old(lastActivity)
    {
      kind := ClassifyHandshake(h);
      if kind.Mirror? {
        isMirror := true;
        mirrorPort := kind.port;
        userId := kind.port;
      } else if !kind.BadHandshake? {
        token := server.RegisterSession(id, newToken);
      }
    }

    /**
     * `init_current_user` followed by the new token: the user id from the
     * reply, the user name when there is one.
     */
    method LogIn(response: Json, uid: int, server: Server, newToken: string) returns (reply: Json)
      requires GetInt(response, "userId") == Some(uid)
      modifies this, server
      ensures userId == uid && token == newToken && newToken in server.sessions && server.sessions[newToken] == id
      ensures userName == if GetStr(response, "userName").Some? then GetStr(response, "userName").value else old(userName)
      ensures reply == Put(response, "sessionToken", JStr(newToken))
      ensures lastActivity == old(lastActivity) && isMirror == old(isMirror) && mirrorPort == old(mirrorPort)
    {
      userId := uid;
      var name := GetStr(response, "userName");
      if name.Some? {
        userName := name.value;
      }
      token := server.RegisterSession(id, newToken);
      reply := Put(response, "sessionToken", JStr(newToken));
    }

    /**
     * `process_request`. `reply` is what is written back (none after a
     * logout, which closes the session), `call` the controller request made,
     * `exit` the automatic exit a logout sends. `loggedIn` are the users
     * the server already has a session for; `mirrorFound` whether the mirror
     * server of a created room is connected; `capacity` and `ccu` the
     * server's figures.
     */
    method ProcessRequest(request: Json, server: Server, controllers: map<string, Json -> Option<Json>>,
                          loggedIn: set<int>, mirrorFound: bool, capacity: int, ccu: int, now: int, newToken: string)
      returns (reply: Option<Json>, call: Option<Call>, exit: Option<Call>)
      modifies this, server
      ensures GetStr(request, "action").None? ==>
        reply == Some(ErrorReply("Invalid request format")) && call.None? && exit.None? && userId == old(userId)
      ensures var action := GetStr(request, "action");
        action.Some? ==>
          var route := RouteOf(action.value, old(userId));
          (route.AuthRequired? ==> reply == Some(ErrorReply("Authentication required")) && call.None?) &&
          (route.Unknown? ==> reply == Some(ErrorReply("Unknown action")) && call.None?) &&
          (route.Forward? && route.kind in controllers ==>
            call == Some(Call(route.kind, Forwarded(request, route.inject, old(userId))))) &&
          (route.Forward? && route.kind !in controllers ==> reply == Some(ErrorReply("Internal server error")) && call.None?) &&
          (route.Ping? ==> lastActivity == now && reply.Some? && IsSuccess(reply.value) && call.None? &&
                           Get(reply.value, "sessionToken") == Some(JStr(token)) && Message(reply.value) == Some("pong")) &&
          (route.Capacity? ==>
             call.None? && reply == Some(JObj(map["action" := JStr("roomCapacity"), "status" := JStr("success"), "roomCapacity" := JNum(capacity)]))) &&
          (route.Ccu? ==>
             call.None? && reply == Some(JObj(map["action" := JStr("CCU"), "status" := JStr("success"), "roomCapacity" := JNum(ccu)]))) &&
          (route.Logout? ==> reply.None? && exit == old(AutoExit(controllers.Keys))) &&
          (!route.Logout? ==> exit.None?) &&
          (userId != old(userId) ==> action.value in {"login", "SSAFYlogin"}) &&
          (!route.Ping? ==> lastActivity == old(lastActivity))
      ensures call.Some? ==> call.value.kind in controllers
      ensures var action := GetStr(request, "action");
        action.Some? && call.Some? ==>
          var v := ControllerVerdict(action.value, controllers[call.value.kind](call.value.request), loggedIn, mirrorFound);
          (v.Answer? ==> reply == Some(v.reply) && userId == old(userId)) &&
          (v.LogInAs? ==>
             userId == v.uid && token == newToken && newToken in server.sessions && server.sessions[newToken] == id &&
             reply == Some(Put(v.response, "sessionToken", JStr(newToken))))
      ensures userId != old(userId) ==> token == newToken && newToken in server.sessions && server.sessions[newToken] == id
      ensures isMirror == old(isMirror) && mirrorPort == old(mirrorPort)
    {
      call, exit := None, None;
      var action := GetStr(request, "action");
      if action.None? {
        return Some(ErrorReply("Invalid request format")), None, None;
      }
      var route := RouteOf(action.value, userId);
      match route {
        case AuthRequired =>
          return Some(ErrorReply("Authentication required")), None, None;
        case Unknown =>
          return Some(ErrorReply("Unknown action")), None, None;
        case Ping =>
          var pong := HandlePing(now);
          return Some(pong), None, None;
        case Logout =>
          exit := AutoExit(controllers.Keys);
          return None, None, exit;
        case Capacity =>
          return Some(JObj(map["action" := JStr("roomCapacity"), "status" := JStr("success"), "roomCapacity" := JNum(capacity)])), None, None;
        case Ccu =>
          return Some(JObj(map["action" := JStr("CCU"), "status" := JStr("success"), "roomCapacity" := JNum(ccu)])), None, None;
        case Forward(kind, inject) =>
          if kind !in controllers {
            return Some(ErrorReply("Internal server error")), None, None;
          }
          var forwarded := Forwarded(request, inject, userId);
          call := Some(Call(kind, forwarded));
          var response := controllers[kind](forwarded);
          if response.None? {
            return Some(ErrorReply("Invalid request format")), call, None;
          }
          var r := response.value;
          if action.value in StatusRead {
            var seen := Touch(r, "status");
            if seen.None? {
              return Some(ErrorReply("Invalid request format")), call, None;
            }
            r := seen.value;
          }
          if (action.value == "login" || action.value == "SSAFYlogin") && IsSuccess(r) {
            var uid := GetInt(r, "userId");
            if uid.None? {
              return Some(ErrorReply("Invalid request format")), call, None;
            }
            if uid.value in loggedIn {
              return Some(ErrorReply("Already login user")), call, None;
            }
            var withToken := LogIn(r, uid.value, server, newToken);
            return Some(withToken), call, None;
          } else if action.value == "createRoom" && IsSuccess(r) && !mirrorFound {
            return Some(ErrorReply("Missing mirror server")), call, None;
          }
          return Some(r), call, None;
      }
    }
  }
}
