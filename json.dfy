/**
 * The slice of nlohmann::json the C++ servers use: objects read by key,
 * `contains`, and the `{"status": ..., "message": ...}` replies every
 * service builds. A C++ `std::string` is a Dafny `string` whose characters
 * are its bytes (code points 0 to 255).
 */
module Json {
  import opened Wrappers

  datatype Json = JNull | JBool(b: bool) | JNum(n: int) | JStr(s: string) | JObj(fields: map<string, Json>) | JArr(items: seq<Json>)

  /** `j.contains(key)`: only an object has members. */
  predicate Contains(j: Json, key: string)
  {
    j.JObj? && key in j.fields
  }

  function Get(j: Json, key: string): Option<Json>
  {
    if Contains(j, key) then Some(j.fields[key]) else None
  }

  /** The string under `key`, when there is one. */
  function GetStr(j: Json, key: string): Option<string>
  {
    if Contains(j, key) && j.fields[key].JStr? then Some(j.fields[key].s) else None
  }

  /** The integer under `key`, when there is one. */
  function GetInt(j: Json, key: string): Option<int>
  {
    if Contains(j, key) && j.fields[key].JNum? then Some(j.fields[key].n) else None
  }

  /**
   * `j[key] = v` on an object or on a null, which nlohmann first turns into
   * an empty object. On any other value nlohmann throws instead; every put
   * here is into a parsed request or a success reply, both objects, so the
   * object this builds for those values stands for nothing.
   */
  function Put(j: Json, key: string, v: Json): (r: Json)
    ensures GetStr(r, key) == if v.JStr? then Some(v.s) else None
  {
    if j.JObj? then JObj(j.fields[key := v]) else JObj(map[key := v])
  }

  /**
   * Reading `j[key]` through a non-const json: a null first becomes an
   * empty object, an object without `key` gains it as null, and any other
   * value throws (`type_error` 305), here `None`.
   */
  function Touch(j: Json, key: string): (r: Option<Json>)
    ensures r.Some? <==> j.JNull? || j.JObj?
    ensures r.Some? ==> Get(r.value, key) == if Contains(j, key) then Get(j, key) else Some(JNull)
    ensures r.Some? ==> forall k :: k != key ==> Get(r.value, k) == Get(j, k)
    ensures Contains(j, key) ==> r == Some(j)
  {
    if j.JObj? then (if key in j.fields then Some(j) else Some(JObj(j.fields[key := JNull])))
    else if j.JNull? then Some(JObj(map[key := JNull]))
    else None
  }

  /** `{"status": "error", "message": msg}`. */
  function ErrorReply(msg: string): Json
  {
    JObj(map["status" := JStr("error"), "message" := JStr(msg)])
  }

  /** `{"status": "success", "message": msg}` plus the given members. */
  function SuccessReply(msg: string, extra: map<string, Json>): Json
  {
    JObj(extra["status" := JStr("success")]["message" := JStr(msg)])
  }

  predicate IsSuccess(j: Json)
  {
    GetStr(j, "status") == Some("success")
  }

  /** The message of a reply. */
  function Message(j: Json): Option<string>
  {
    GetStr(j, "message")
  }

  lemma ErrorReplyShape(msg: string)
    ensures !IsSuccess(ErrorReply(msg)) && Message(ErrorReply(msg)) == Some(msg)
  {
    assert ErrorReply(msg).fields["status"] == JStr("error");
  }

  lemma SuccessReplyShape(msg: string, extra: map<string, Json>)
    ensures IsSuccess(SuccessReply(msg, extra)) && Message(SuccessReply(msg, extra)) == Some(msg)
    ensures forall k :: k in extra && k != "status" && k != "message" ==> Get(SuccessReply(msg, extra), k) == Some(extra[k])
  {
  }
}
