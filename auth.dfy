/**
 * Registration and login in both servers. Each checks the user name's
 * length, then the password's, then looks the name up, then creates the
 * user with the hashed password; login looks the user up, compares the
 * password's hash with the stored one and only then records the login.
 *
 * The users table is a class over its rows in insertion order. The
 * matching server looks names up without regard to ASCII case
 * (`LOWER(user_name) = LOWER($1)`), the game socket server exactly; `fault`
 * stands for a database exception, which each repository call turns into
 * "not found", -1 or false.
 *
 * The matching server's lookup reads `last_login` as a string without a
 * NULL check, so a row that never logged in makes it throw and answer "not
 * found"; a table with `strictLastLogin` set behaves so, one without it
 * reads a NULL login time as missing, as the game socket server does.
 */
module Auth {
  import opened Wrappers
  import opened Json
  import opened Password

  /** The per-user figures the game socket server keeps; new rows take the table's column defaults. */
  datatype Stats = Stats(rating: int, totalGames: int, totalWins: int)

  datatype UserRow = UserRow(userId: nat, userName: string, passwordHash: string, stats: Stats, lastLogin: Option<nat>)

  function LowerChar(c: char): char
  {
    if 'A' <= c <= 'Z' then (c as int + 32) as char else c
  }

  /** SQL `LOWER` on ASCII letters. */
  function Lower(s: string): (r: string)
    ensures |r| == |s| && forall i :: 0 <= i < |s| ==> r[i] == LowerChar(s[i])
  {
    if |s| == 0 then [] else [LowerChar(s[0])] + Lower(s[1..])
  }

  predicate SameName(ignoreCase: bool, stored: string, name: string)
  {
    if ignoreCase then Lower(stored) == Lower(name) else stored == name
  }

  /** The first row whose name matches, as `result[0]` of the SELECT. */
  function FindByName(rows: seq<UserRow>, name: string, ignoreCase: bool): (r: Option<UserRow>)
    ensures r.None? <==> forall i :: 0 <= i < |rows| ==> !SameName(ignoreCase, rows[i].userName, name)
    ensures r.Some? ==> r.value in rows && SameName(ignoreCase, r.value.userName, name)
  {
    if |rows| == 0 then None
    else if SameName(ignoreCase, rows[0].userName, name) then Some(rows[0])
    else FindByName(rows[1..], name, ignoreCase)
  }

  /**
   * What `findByUsername` answers: the first matching row, except that with
   * `strictLastLogin` a row whose login time is NULL reads as no row.
   */
  function Lookup(rows: seq<UserRow>, name: string, ignoreCase: bool, strictLastLogin: bool): Option<UserRow>
  {
    var f := FindByName(rows, name, ignoreCase);
    if strictLastLogin && f.Some? && f.value.lastLogin.None? then None else f
  }

  /** A name that matches nowhere in the table matches the row added after it. */
  lemma {:induction false} FindByNameAppend(rows: seq<UserRow>, r: UserRow, name: string, ignoreCase: bool)
    requires FindByName(rows, name, ignoreCase).None? && SameName(ignoreCase, r.userName, name)
    ensures FindByName(rows + [r], name, ignoreCase) == Some(r)
  {
    if |rows| > 0 {
      assert (rows + [r])[1..] == rows[1..] + [r];
      FindByNameAppend(rows[1..], r, name, ignoreCase);
    }
  }

  /** The case-insensitive lookup cannot tell two spellings apart that differ only in ASCII case. */
  lemma {:induction false} FindIgnoresCase(rows: seq<UserRow>, a: string, b: string)
    requires Lower(a) == Lower(b)
    ensures FindByName(rows, a, true) == FindByName(rows, b, true)
  {
    if |rows| > 0 {
      FindIgnoresCase(rows[1..], a, b);
    }
  }

  /** The login time of every row of `userId` set to `now`. */
  function StampLogin(rows: seq<UserRow>, userId: nat, now: nat): (r: seq<UserRow>)
    ensures |r| == |rows|
    ensures forall i :: 0 <= i < |rows| ==>
      r[i] == if rows[i].userId == userId then rows[i].(lastLogin := Some(now)) else rows[i]
  {
    if |rows| == 0 then [] else
      [if rows[0].userId == userId then rows[0].(lastLogin := Some(now)) else rows[0]] + StampLogin(rows[1..], userId, now)
  }

  class UserTable {
    const ignoreCase: bool
    const strictLastLogin: bool
    const defaults: Stats
    var rows: seq<UserRow>
    var nextId: nat

    constructor(ignoreCase: bool, strictLastLogin: bool, defaults: Stats)
      ensures this.ignoreCase == ignoreCase && this.strictLastLogin == strictLastLogin && this.defaults == defaults
      ensures rows == [] && nextId == 1
    {
      this.ignoreCase := ignoreCase;
      this.strictLastLogin := strictLastLogin;
      this.defaults := defaults;
      rows := [];
      nextId := 1;
    }

    /**
     * `findByUsername`: the matching row; none when there is none, when the
     * query fails, or, with `strictLastLogin`, when the row never logged in.
     */
    method FindByUsername(name: string, fault: bool) returns (u: Option<UserRow>)
      ensures u.Some? ==> !fault && u == FindByName(rows, name, ignoreCase)
      ensures u.None? <==>
        (fault || FindByName(rows, name, ignoreCase).None? ||
         (strictLastLogin && FindByName(rows, name, ignoreCase).value.lastLogin.None?))
    {
      if fault {
        return None;
      }
      u := FindByName(rows, name, ignoreCase);
      if strictLastLogin && u.Some? && u.value.lastLogin.None? {
        return None;
      }
    }

    /**
     * `create`: a new row with the next serial id, which is returned; -1 when
     * the insert fails. The serial is used up whenever the failing statement
     * had already drawn it (`burned`).
     */
    method Create(name: string, hash: string, fault: bool, burned: bool) returns (id: int)
      modifies this
      ensures id == if fault then -1 else old(nextId)
      ensures rows == if fault then old(rows) else old(rows) + [UserRow(old(nextId), name, hash, defaults, None)]
      ensures nextId == if fault && !burned then old(nextId) else old(nextId) + 1
    {
      if fault {
        if burned {
          nextId := nextId + 1;
        }
        return -1;
      }
      id := nextId;
      rows := rows + [UserRow(nextId, name, hash, defaults, None)];
      nextId := nextId + 1;
    }

    /** `updateLastLogin`. */
    method UpdateLastLogin(userId: nat, now: nat, fault: bool)
      modifies this
      ensures rows == if fault then old(rows) else StampLogin(old(rows), userId, now)
      ensures nextId == old(nextId)
    {
      if !fault {
        rows := StampLogin(rows, userId, now);
      }
    }
  }

  /** The repository faults a request can meet, one per call. */
  datatype Faults = Faults(lookup: bool, create: bool, burned: bool, stamp: bool)

  const BadUserName := "Username must be between 3 and 20 characters"
  const BadPassword := "Password must be at least 6 characters"

  /** The length checks both servers make before the lookup, in their order. */
  function RegisterCheck(userName: Option<string>, password: Option<string>): (r: Option<string>)
    ensures r.None? <==> userName.Some? && 3 <= |userName.value| <= 20 && password.Some? && 6 <= |password.value|
    ensures r == Some(BadUserName) <==> userName.None? || |userName.value| < 3 || |userName.value| > 20
  {
    if userName.None? || |userName.value| < 3 || |userName.value| > 20 then Some(BadUserName)
    else if password.None? || |password.value| < 6 then Some(BadPassword)
    else None
  }

  /** The row a successful registration adds. */
  function NewUser(db0nextId: nat, name: string, password: string, sha: string -> Digest, defaults: Stats): UserRow
  {
    UserRow(db0nextId, name, HashPassword(sha, password), defaults, None)
  }

  /**
   * A user registered under a name no row matched logs in with the same
   * name and password: a lookup that reads a NULL login time as missing
   * finds the new row, and the stored hash is the password's.
   */
  lemma RegisterThenLogin(rows: seq<UserRow>, id: nat, name: string, password: string, sha: string -> Digest, defaults: Stats, ignoreCase: bool)
    requires FindByName(rows, name, ignoreCase).None?
    ensures var r := NewUser(id, name, password, sha, defaults);
      Lookup(rows + [r], name, ignoreCase, false) == Some(r) && VerifyPassword(sha, password, r.passwordHash)
  {
    FindByNameAppend(rows, NewUser(id, name, password, sha, defaults), name, ignoreCase);
  }

  /**
   * The matching server's lookup as written cannot read a user who has
   * never logged in: right after a registration under a free name the
   * lookup answers none, so a login is refused as "Invalid username" and a
   * second registration under the same name passes the duplicate check.
   */
  lemma FreshUserUnreadable(rows: seq<UserRow>, id: nat, name: string, password: string, sha: string -> Digest, defaults: Stats, ignoreCase: bool)
    requires FindByName(rows, name, ignoreCase).None?
    ensures Lookup(rows + [NewUser(id, name, password, sha, defaults)], name, ignoreCase, true).None?
  {
    FindByNameAppend(rows, NewUser(id, name, password, sha, defaults), name, ignoreCase);
  }

  // ----------------------------------------------------------- matching server

  datatype MsRegisterRequest = MsRegisterRequest(userName: Option<string>, password: Option<string>)
  datatype LoginRequest = LoginRequest(userName: string, password: string)

  /**
   * The matching server's `registerUser`: the length checks, then a name
   * no row matches in any case, then the insert; a success carries the new
   * id and the name as requested.
   */
  method MsRegister(db: UserTable, req: MsRegisterRequest, sha: string -> Digest, faults: Faults) returns (reply: Json)
    modifies db
    ensures RegisterCheck(req.userName, req.password).Some? ==> reply == ErrorReply(RegisterCheck(req.userName, req.password).value)
    ensures var free := RegisterCheck(req.userName, req.password).None? &&
        (faults.lookup || Lookup(old(db.rows), req.userName.value, db.ignoreCase, db.strictLastLogin).None?);
      (IsSuccess(reply) <==> free && !faults.create) &&
      db.nextId == if free && (!faults.create || faults.burned) then old(db.nextId) + 1 else old(db.nextId)
    ensures IsSuccess(reply) ==>
      db.rows == old(db.rows) + [NewUser(old(db.nextId), req.userName.value, req.password.value, sha, db.defaults)] &&
      Get(reply, "userId") == Some(JNum(old(db.nextId))) && Get(reply, "userName") == Some(JStr(req.userName.value))
    ensures !IsSuccess(reply) ==> db.rows == old(db.rows)
  {
    var check := RegisterCheck(req.userName, req.password);
    if check.Some? {
      return ErrorReply(check.value);
    }
    var existing := db.FindByUsername(req.userName.value, faults.lookup);
    if existing.Some? {
      return ErrorReply("Username already exists");
    }
    var hashed := HashPassword(sha, req.password.value);
    var userId := db.Create(req.userName.value, hashed, faults.create, faults.burned);
    if userId < 0 {
      return ErrorReply("Failed to create user");
    }
    reply := SuccessReply("Registration successful",
                          map["action" := JStr("register"), "userId" := JNum(userId), "userName" := JStr(req.userName.value)]);
  }

  /** The stored login time as a reply member. */
  function LoginTime(t: Option<nat>): Json
  {
    if t.Some? then JNum(t.value) else JNull
  }

  /** The success reply of a login, from the row as read. */
  function LoginReply(u: UserRow): (reply: Json)
    ensures IsSuccess(reply)
    ensures Get(reply, "userId") == Some(JNum(u.userId)) && Get(reply, "userName") == Some(JStr(u.userName))
    ensures Get(reply, "lastLogin") == Some(LoginTime(u.lastLogin))
  {
    SuccessReply("Login successful",
                 map["action" := JStr("login"), "userId" := JNum(u.userId),
                     "userName" := JStr(u.userName), "lastLogin" := LoginTime(u.lastLogin)])
  }

  /**
   * The matching server's `loginUser`: "Invalid username" when no row
   * matches, "Invalid password" when the hashes differ; only a success
   * records the login, and the reply carries the stored name and the
   * previous login time, both read before the update.
   */
  method MsLogin(db: UserTable, req: LoginRequest, sha: string -> Digest, now: nat, faults: Faults) returns (reply: Json)
    modifies db
    ensures var u := if faults.lookup then None else Lookup(old(db.rows), req.userName, db.ignoreCase, db.strictLastLogin);
      (u.None? ==> reply == ErrorReply("Invalid username")) &&
      (u.Some? && !VerifyPassword(sha, req.password, u.value.passwordHash) ==> reply == ErrorReply("Invalid password")) &&
      (IsSuccess(reply) <==> u.Some? && VerifyPassword(sha, req.password, u.value.passwordHash)) &&
      (IsSuccess(reply) ==>
        Get(reply, "userId") == Some(JNum(u.value.userId)) && Get(reply, "userName") == Some(JStr(u.value.userName)) &&
        Get(reply, "lastLogin") == Some(LoginTime(u.value.lastLogin)) &&
        db.rows == (if faults.stamp then old(db.rows) else StampLogin(old(db.rows), u.value.userId, now)))
    ensures !IsSuccess(reply) ==> db.rows == old(db.rows)
    ensures db.nextId == old(db.nextId)
  {
    var user := db.FindByUsername(req.userName, faults.lookup);
    if user.None? {
      return ErrorReply("Invalid username");
    }
    if !VerifyPassword(sha, req.password, user.value.passwordHash) {
      return ErrorReply("Invalid password");
    }
    db.UpdateLastLogin(user.value.userId, now, faults.stamp);
    reply := LoginReply(user.value);
  }

  // ------------------------------------------------------ game socket server

  /** The response structs of the game socket server's auth service. */
  datatype GsReply =
    | GsFailure(message: string)
    | GsRegistered(userId: int, username: string)
    | GsLoggedIn(userId: int, username: string, stats: Stats)

  /**
   * The game socket server's `registerUser`: the same checks on the
   * request's strings (an empty string counts as missing), then an exact
   * name lookup and the insert.
   */
  method GsRegister(db: UserTable, username: string, password: string, sha: string -> Digest, faults: Faults) returns (reply: GsReply)
    modifies db
    ensures var check := RegisterCheck(Some(username), Some(password));
      var free := check.None? && (faults.lookup || Lookup(old(db.rows), username, db.ignoreCase, db.strictLastLogin).None?);
      (check.Some? ==> reply == GsFailure(check.value)) &&
      (reply.GsRegistered? <==> free && !faults.create) &&
      db.nextId == if free && (!faults.create || faults.burned) then old(db.nextId) + 1 else old(db.nextId)
    ensures reply.GsRegistered? ==>
      reply == GsRegistered(old(db.nextId), username) &&
      db.rows == old(db.rows) + [NewUser(old(db.nextId), username, password, sha, db.defaults)]
    ensures !reply.GsRegistered? ==> reply.GsFailure? && db.rows == old(db.rows)
  {
    var check := RegisterCheck(Some(username), Some(password));
    if check.Some? {
      return GsFailure(check.value);
    }
    var existing := db.FindByUsername(username, faults.lookup);
    if existing.Some? {
      return GsFailure("Username already exists");
    }
    var hashed := HashPassword(sha, password);
    var userId := db.Create(username, hashed, faults.create, faults.burned);
    if userId < 0 {
      return GsFailure("Failed to create user");
    }
    return GsRegistered(userId, username);
  }

  const BadCredentials := "Invalid username or password"

  /**
   * The game socket server's `loginUser`: an unknown name and a wrong
   * password give the same message; a success records the login and copies
   * the user's figures.
   */
  method GsLogin(db: UserTable, req: LoginRequest, sha: string -> Digest, now: nat, faults: Faults) returns (reply: GsReply)
    modifies db
    ensures var u := if faults.lookup then None else Lookup(old(db.rows), req.userName, db.ignoreCase, db.strictLastLogin);
      (reply.GsLoggedIn? <==> u.Some? && VerifyPassword(sha, req.password, u.value.passwordHash)) &&
      (!reply.GsLoggedIn? ==> reply == GsFailure(BadCredentials) && db.rows == old(db.rows)) &&
      (reply.GsLoggedIn? ==>
        reply == GsLoggedIn(u.value.userId, u.value.userName, u.value.stats) &&
        db.rows == (if faults.stamp then old(db.rows) else StampLogin(old(db.rows), u.value.userId, now)))
    ensures db.nextId == old(db.nextId)
  {
    var user := db.FindByUsername(req.userName, faults.lookup);
    if user.None? {
      return GsFailure(BadCredentials);
    }
    if !VerifyPassword(sha, req.password, user.value.passwordHash) {
      return GsFailure(BadCredentials);
    }
    db.UpdateLastLogin(user.value.userId, now, faults.stamp);
    return GsLoggedIn(user.value.userId, user.value.userName, user.value.stats);
  }
}
