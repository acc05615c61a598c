/**
 * The API gateway's `RequestRouter`: a table from action names to
 * handlers, and the dispatch of a request by its `action`. A handler is a
 * function from request to reply, `None` when it throws.
 */
module RequestRouter {
  import opened Wrappers
  import opened Json

  type Handler = Json -> Option<Json>

  const NoAction := "No action specified"
  const UnknownAction := "Unknown action"
  const InternalError := "Internal server error"

  /**
   * `route` against the table `routes`: `None` when reading the action
   * itself throws, which happens when it is not a string.
   */
  function Dispatch(routes: map<string, Handler>, request: Json): (reply: Option<Json>)
    ensures !Contains(request, "action") ==> reply == Some(ErrorReply(NoAction))
    ensures reply.None? <==> Contains(request, "action") && GetStr(request, "action").None?
    ensures GetStr(request, "action").Some? ==>
      var action := GetStr(request, "action").value;
      (action !in routes ==> reply == Some(ErrorReply(UnknownAction))) &&
      (action in routes && routes[action](request).Some? ==> reply == routes[action](request)) &&
      (action in routes && routes[action](request).None? ==> reply == Some(ErrorReply(InternalError)))
  {
    if !Contains(request, "action") then Some(ErrorReply(NoAction))
    else if GetStr(request, "action").None? then None
    else
      var action := GetStr(request, "action").value;
      if action !in routes then Some(ErrorReply(UnknownAction))
      else if routes[action](request).None? then Some(ErrorReply(InternalError))
      else routes[action](request)
  }

  /** Only the action's own handler is ever asked: routes for other actions do not matter. */
  lemma DispatchLocal(routes: map<string, Handler>, other: string, h: Handler, request: Json)
    requires GetStr(request, "action") != Some(other)
    ensures Dispatch(routes[other := h], request) == Dispatch(routes, request)
  {
  }

  /** A handler registered for an action answers its requests, unless it throws. */
  lemma RegisteredAnswers(routes: map<string, Handler>, action: string, h: Handler, request: Json)
    requires GetStr(request, "action") == Some(action)
    ensures Dispatch(routes[action := h], request) == if h(request).Some? then h(request) else Some(ErrorReply(InternalError))
  {
  }

  class Router {
    var routes: map<string, Handler>

    constructor()
      ensures routes == map[]
    {
      routes := map[];
    }

    /** `registerRoute`: the handler replaces any earlier one for the action. */
    method RegisterRoute(action: string, handler: Handler)
      modifies this
      ensures routes == old(routes)[action := handler]
    {
      routes := routes[action := handler];
    }

    /** `route`. */
    method Route(request: Json) returns (reply: Option<Json>)
      ensures reply == Dispatch(routes, request)
    {
      if !Contains(request, "action") {
        return Some(ErrorReply(NoAction));
      }
      var action := GetStr(request, "action");
      if action.None? {
        return None;
      }
      if action.value !in routes {
        return Some(ErrorReply(UnknownAction));
      }
      var response := routes[action.value](request);
      if response.None? {
        return Some(ErrorReply(InternalError));
      }
      reply := response;
    }
  }
}
