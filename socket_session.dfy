/**
 * The game socket server's session: HTTP-style framing of requests by their
 * `Content-Length` header, the routing of a request to a controller, and the
 * header written in front of each response. Strings are byte strings.
 */
module SocketSession {
  import opened Wrappers
  import opened Json
  import Text

  // ------------------------------------------------------------ searching

  /** `pat` occurs in `s` at `i`. */
  predicate Occurs(s: string, pat: string, i: nat)
  {
    i + |pat| <= |s| && s[i..i + |pat|] == pat
  }

  /** `s.find(pat, from)`: the first occurrence at or after `from`. */
  function Find(s: string, pat: string, from: nat): (r: Option<nat>)
    ensures r.Some? ==> from <= r.value && Occurs(s, pat, r.value)
    ensures r.Some? ==> forall i :: from <= i < r.value ==> !Occurs(s, pat, i)
    ensures r.None? ==> forall i :: from <= i ==> !Occurs(s, pat, i)
    decreases |s| - from
  {
    if from + |pat| > |s| then None
    else if s[from..from + |pat|] == pat then Some(from)
    else Find(s, pat, from + 1)
  }

  /** An occurrence with none before it, from `from` on, is what `find` returns. */
  lemma FindIs(s: string, pat: string, from: nat, k: nat)
    requires from <= k && Occurs(s, pat, k)
    requires forall i :: from <= i < k ==> !Occurs(s, pat, i)
    ensures Find(s, pat, from) == Some(k)
  {
  }

  // ------------------------------------------------------------ std::stoul

  predicate IsSpace(c: char)
  {
    c == ' ' || c == '\t' || c == '\n' || c == '\r' || c == 11 as char || c == 12 as char
  }

  function SkipSpace(s: string): (r: string)
    ensures |r| <= |s|
  {
    if |s| > 0 && IsSpace(s[0]) then SkipSpace(s[1..]) else s
  }

  /** The longest prefix of decimal digits. */
  function DigitPrefix(s: string): (r: string)
    ensures Text.AllDigits(r) && |r| <= |s| && r == s[..|r|]
    ensures |r| < |s| ==> !Text.IsDigit(s[|r|])
  {
    if |s| > 0 && Text.IsDigit(s[0]) then [s[0]] + DigitPrefix(s[1..]) else []
  }

  const ULongRange: nat := 0x1_0000_0000_0000_0000

  /**
   * `std::stoul`: leading white space, an optional sign, then the longest
   * run of digits (what follows is ignored). No digits, or a value beyond
   * `unsigned long`, throws: `None`. A minus sign negates modulo 2^64.
   */
  function Stoul(s: string): Option<nat>
  {
    var t := SkipSpace(s);
    var signed := |t| > 0 && (t[0] == '-' || t[0] == '+');
    var d := DigitPrefix(if signed then t[1..] else t);
    if |d| == 0 then None
    else
      var v := Text.ParseDigits(d);
      if v >= ULongRange then None
      else if signed && t[0] == '-' then Some((ULongRange - v) % ULongRange)
      else Some(v)
  }

  /** A decimal rendering of a length reads back as that length. */
  lemma StoulOfDecimal(n: nat)
    requires n < ULongRange
    ensures Stoul(Text.IntToString(n)) == Some(n)
  {
    var s := Text.IntToString(n);
    Text.ParseNatToString(n);
    assert Text.IsDigit(s[0]);
    assert SkipSpace(s) == s;
    DigitPrefixAll(s);
  }

  lemma {:induction false} DigitPrefixAll(s: string)
    requires Text.AllDigits(s)
    ensures DigitPrefix(s) == s
  {
    if |s| > 0 {
      DigitPrefixAll(s[1..]);
    }
  }

  // ------------------------------------------------------------ framing

  const LengthField := "Content-Length: "
  const LineEnd := "\r\n"
  const HeaderEnd := "\r\n\r\n"

  /** What the session does with what it has read. */
  datatype ReadOutcome =
    | Process(request: string)
    | NeedMore(partial: string, remaining: nat)
    | Stall
    | Throws

  /** The line end after a `Content-Length: ` field lies past the field's name. */
  lemma LineEndAfterField(s: string, p: nat, e: nat)
    requires Occurs(s, LengthField, p) && Occurs(s, LineEnd, e)
    requires p <= e
    ensures p + |LengthField| <= e
  {
    forall k | p <= k < p + |LengthField|
      ensures s[k] != '\r'
    {
      assert s[k] == LengthField[k - p];
    }
    assert s[e] == LineEnd[0];
  }

  /**
   * The declared body length: the digits between `Content-Length: ` and the
   * next line end; 0 without such a field; `None` when `stoul` throws.
   */
  function DeclaredLength(header: string): Option<nat>
  {
    var pos := Find(header, LengthField, 0);
    if pos.None? then Some(0)
    else
      var p := pos.value;
      var end := Find(header, LineEnd, p);
      if end.None? then Some(0)
      else
        LineEndAfterField(header, p, end.value);
        Stoul(header[p + |LengthField|..end.value])
  }

  /**
   * `read_header` on the bytes of one read: the length is read first (its
   * `stoul` may throw); without a blank line nothing happens, not even
   * another read; with a whole body its first N bytes are processed,
   * otherwise the partial body waits for N minus what has arrived.
   */
  function ReadHeader(chunk: string): (r: ReadOutcome)
    ensures r.Throws? <==> DeclaredLength(chunk).None?
    ensures r.Stall? <==> DeclaredLength(chunk).Some? && Find(chunk, HeaderEnd, 0).None?
    ensures r.Process? ==> DeclaredLength(chunk) == Some(|r.request|)
    ensures r.NeedMore? ==> DeclaredLength(chunk) == Some(|r.partial| + r.remaining) && r.remaining > 0
    ensures r.Process? || r.NeedMore? ==>
      var sep := Find(chunk, HeaderEnd, 0);
      sep.Some? && sep.value + |HeaderEnd| <= |chunk| &&
      (r.Process? ==> r.request <= chunk[sep.value + |HeaderEnd|..]) &&
      (r.NeedMore? ==> r.partial == chunk[sep.value + |HeaderEnd|..])
  {
    var n := DeclaredLength(chunk);
    if n.None? then Throws
    else
      var sep := Find(chunk, HeaderEnd, 0);
      if sep.None? then Stall
      else
        var body := chunk[sep.value + |HeaderEnd|..];
        if |body| >= n.value then Process(body[..n.value])
        else NeedMore(body, n.value - |body|)
  }

  /**
   * The reads of `read_body` over successive chunks: each chunk is
   * appended, and the first one at least as long as what remains ends the
   * body; `None` when the chunks run out first.
   */
  function Drain(message: string, remaining: nat, chunks: seq<string>): Option<string>
    decreases |chunks|
  {
    if |chunks| == 0 then None
    else if |chunks[0]| >= remaining then Some(message + chunks[0])
    else Drain(message + chunks[0], remaining - |chunks[0]|, chunks[1..])
  }

  /** All the chunks one after the other. */
  function Concat(chunks: seq<string>): string
  {
    if |chunks| == 0 then [] else chunks[0] + Concat(chunks[1..])
  }

  /**
   * A body drained to its end holds at least the remaining bytes, and is
   * what arrived in order: its first bytes are exactly the partial message
   * and the bytes read after it. It ends with a whole chunk, so it may run
   * past the declared length.
   */
  lemma {:induction false} DrainPrefix(message: string, remaining: nat, chunks: seq<string>)
    requires Drain(message, remaining, chunks).Some?
    ensures var p := Drain(message, remaining, chunks).value;
      |p| >= |message| + remaining && p <= message + Concat(chunks)
    decreases |chunks|
  {
    assert |chunks| > 0;
    assert message + Concat(chunks) == message + chunks[0] + Concat(chunks[1..]);
    if |chunks[0]| < remaining {
      DrainPrefix(message + chunks[0], remaining - |chunks[0]|, chunks[1..]);
    }
  }

  // ------------------------------------------------------------ responses

  const StatusLine := "HTTP/1.1 200 OK"
  const TypeLine := "Content-Type: application/json"
  const KeepAlive := "Connection: keep-alive"
  const StatusAndType := StatusLine + LineEnd + TypeLine + LineEnd
  const HeaderTail := LineEnd + KeepAlive + HeaderEnd

  /** `write_response`: the header, whose `Content-Length` is the body's length, then the body. */
  function WriteResponse(body: string): string
  {
    StatusAndType + LengthField + Text.IntToString(|body|) + HeaderTail + body
  }

  /** The status line holds no capital C and no carriage return. */
  lemma StatusLineChars()
    ensures 'C' !in StatusLine && '\r' !in StatusLine
  {
  }

  /** The type line holds no carriage return; it has a C at 0 and a T at 8. */
  lemma TypeLineChars()
    ensures TypeLine[0] == 'C' && TypeLine[8] == 'T' && '\r' !in TypeLine
  {
  }

  /** The type line holds no capital C after its first character. */
  lemma TypeLineCapital()
    ensures forall i :: 1 <= i < |TypeLine| ==> TypeLine[i] != 'C'
  {
  }

  /** The keep-alive line holds no carriage return. */
  lemma KeepAliveChars()
    ensures '\r' !in KeepAlive
  {
  }

  /** The status lines end in the only carriage returns they hold. */
  lemma StatusReturns()
    ensures |StatusAndType| == 49 && |LengthField| == 16
    ensures forall i :: 0 <= i < 49 && StatusAndType[i] == '\r' ==> i == 15 || i == 47
    ensures StatusAndType[17] == 'C' && '\r' !in LengthField && LengthField[0] == 'C'
  {
    var s := StatusAndType;
    StatusLineChars();
    TypeLineChars();
    forall i | 0 <= i < 49
      ensures s[i] != '\r' || i == 15 || i == 47
    {
      if i < 15 {
        assert s[i] == StatusLine[i];
      } else if 17 <= i < 47 {
        assert s[i] == TypeLine[i - 17];
      }
    }
  }

  /** The status lines hold one capital C, not followed eight places on by an L. */
  lemma StatusCapitals()
    ensures |StatusAndType| == 49
    ensures forall i :: 0 <= i < 49 && StatusAndType[i] == 'C' ==> i == 17
    ensures StatusAndType[25] == 'T'
  {
    var s := StatusAndType;
    StatusLineChars();
    TypeLineChars();
    TypeLineCapital();
    forall i | 0 <= i < 49
      ensures s[i] != 'C' || i == 17
    {
      if i < 15 {
        assert s[i] == StatusLine[i];
      } else if i < 17 {
        assert s[i] == LineEnd[i - 15];
      } else if 17 < i < 47 {
        assert s[i] == TypeLine[i - 17];
      } else if 47 <= i {
        assert s[i] == LineEnd[i - 47];
      }
    }
    assert s[25] == TypeLine[8];
  }

  /** The tail of the header: no blank line until its end. */
  lemma TailChars()
    ensures |HeaderTail| == 28
    ensures forall i :: 0 <= i < 24 ==> HeaderTail[i] != '\r' || HeaderTail[i + 2] != '\r'
    ensures HeaderTail[24..28] == HeaderEnd && HeaderTail[..2] == LineEnd
  {
    var t := HeaderTail;
    KeepAliveChars();
    forall i | 0 <= i < 24
      ensures t[i] != '\r' || t[i + 2] != '\r'
    {
      if i < 2 {
        assert t[i + 2] == KeepAlive[i];
      } else {
        assert t[i] == KeepAlive[i - 2];
      }
    }
  }

  // A written response is laid out as p + f + d + t + b: the status lines,
  // the length field's name, the digits, the header's tail and the body. The
  // lemmas below reason about that layout with the pieces as variables.

  /** With no `C` in `p` that could start the field's name, the first field is the one after `p`. */
  lemma {:induction false} FieldAfter(p: string, f: string, d: string, t: string, b: string)
    requires |f| > 8 && f[0] == 'C' && f[8] == 'L'
    requires forall i :: 0 <= i < |p| && p[i] == 'C' ==> i + 8 < |p| && p[i + 8] != 'L'
    ensures Find(p + f + d + t + b, f, 0) == Some(|p|)
  {
    var w := p + f + d + t + b;
    forall i | 0 <= i < |p|
      ensures !Occurs(w, f, i)
    {
      if i + |f| <= |w| {
        assert w[i..i + |f|][0] == w[i] == p[i];
        if p[i] == 'C' {
          assert w[i..i + |f|][8] == w[i + 8] == p[i + 8];
        }
      }
    }
    assert w[|p|..|p| + |f|] == f;
    FindIs(w, f, 0, |p|);
  }

  /** With no carriage return in `f` and `d`, the line after `p` ends where `t` begins. */
  lemma {:induction false} LineAfter(p: string, f: string, d: string, t: string, b: string)
    requires '\r' !in f && '\r' !in d && |t| >= 2 && t[..2] == LineEnd
    ensures var w, e := p + f + d + t + b, |p| + |f| + |d|;
      Find(w, LineEnd, |p|) == Some(e) && w[|p| + |f|..e] == d
  {
    var w, e := p + f + d + t + b, |p| + |f| + |d|;
    forall i | |p| <= i < e
      ensures !Occurs(w, LineEnd, i)
    {
      if i < |p| + |f| {
        assert w[i] == f[i - |p|];
      } else {
        assert w[i] == d[i - |p| - |f|];
      }
      assert w[i..i + 2][0] == w[i];
    }
    assert w[e..e + 2] == t[..2];
    FindIs(w, LineEnd, |p|, e);
  }

  /** No carriage return at `i` is followed by another at `i + 2`, for `lo <= i < hi`. */
  predicate NoReturnPair(w: string, lo: nat, hi: nat)
  {
    forall i :: lo <= i < hi && i + 2 < |w| ==> w[i] != '\r' || w[i + 2] != '\r'
  }

  /** No blank line starts where no carriage return is followed by another two places on. */
  lemma NoHeaderEndIn(w: string, lo: nat, hi: nat)
    requires NoReturnPair(w, lo, hi)
    ensures forall i :: lo <= i < hi ==> !Occurs(w, HeaderEnd, i)
  {
    forall i | lo <= i < hi
      ensures !Occurs(w, HeaderEnd, i)
    {
      if i + 4 <= |w| {
        assert w[i..i + 4][0] == w[i] && w[i..i + 4][2] == w[i + 2];
      }
    }
  }

  /** The carriage returns of `p` are not followed by another two places on, nor are `f` and `d` holding any. */
  lemma {:induction false} HeadPairs(p: string, f: string, d: string, t: string, b: string)
    requires forall i {:trigger p[i]} :: 0 <= i < |p| && p[i] == '\r' ==> i + 2 == |p| || (i + 2 < |p| && p[i + 2] != '\r')
    requires |f| > 0 && '\r' !in f && '\r' !in d
    ensures NoReturnPair(p + f + d + t + b, 0, |p| + |f| + |d|)
  {
    var w := p + f + d + t + b;
    forall i | 0 <= i < |p| + |f| + |d| && i + 2 < |w|
      ensures w[i] != '\r' || w[i + 2] != '\r'
    {
      if i < |p| {
        assert w[i] == p[i];
        if i + 2 < |p| {
          assert w[i + 2] == p[i + 2];
        } else if i + 2 == |p| {
          assert w[i + 2] == f[0] && f[0] in f;
        }
      } else if i < |p| + |f| {
        assert w[i] == f[i - |p|] && f[i - |p|] in f;
      } else {
        assert w[i] == d[i - |p| - |f|] && d[i - |p| - |f|] in d;
      }
    }
  }

  /** The pairs of `t` carry over to the response, up to the blank line that ends `t`. */
  lemma {:induction false} TailPairs(p: string, f: string, d: string, t: string, b: string)
    requires |t| == 28 && forall i :: 0 <= i < 24 ==> t[i] != '\r' || t[i + 2] != '\r'
    ensures var e := |p| + |f| + |d|; NoReturnPair(p + f + d + t + b, e, e + 24)
  {
    var w, e := p + f + d + t + b, |p| + |f| + |d|;
    forall i | e <= i < e + 24 && i + 2 < |w|
      ensures w[i] != '\r' || w[i + 2] != '\r'
    {
      assert w[i] == t[i - e] && w[i + 2] == t[i - e + 2];
    }
  }

  /** The response names its length in the first `Content-Length: ` field, at offset 49. */
  lemma FieldOfResponse(body: string)
    ensures Find(WriteResponse(body), LengthField, 0) == Some(49)
  {
    StatusCapitals();
    assert LengthField[0] == 'C' && LengthField[8] == 'L';
    FieldAfter(StatusAndType, LengthField, Text.IntToString(|body|), HeaderTail, body);
  }

  /** The decimal length holds no carriage return. */
  lemma DigitsNoReturn(n: nat)
    ensures '\r' !in Text.IntToString(n)
  {
    Text.ParseNatToString(n);
  }

  /** The field's line ends right after the digits. */
  lemma LineOfResponse(body: string)
    ensures var d := Text.IntToString(|body|);
      Find(WriteResponse(body), LineEnd, 49) == Some(65 + |d|) && WriteResponse(body)[65..65 + |d|] == d
  {
    StatusReturns();
    TailChars();
    DigitsNoReturn(|body|);
    LineAfter(StatusAndType, LengthField, Text.IntToString(|body|), HeaderTail, body);
  }

  /** The status lines and the length field hold no blank line. */
  lemma NoBlankLineBefore(body: string)
    ensures forall i :: 0 <= i < 65 + |Text.IntToString(|body|)| ==> !Occurs(WriteResponse(body), HeaderEnd, i)
  {
    var d := Text.IntToString(|body|);
    StatusReturns();
    DigitsNoReturn(|body|);
    HeadPairs(StatusAndType, LengthField, d, HeaderTail, body);
    NoHeaderEndIn(WriteResponse(body), 0, 65 + |d|);
  }

  /** The first blank line is the one that ends the header. */
  lemma BlankLineOfResponse(body: string)
    ensures var d := Text.IntToString(|body|);
      Find(WriteResponse(body), HeaderEnd, 0) == Some(89 + |d|) && WriteResponse(body)[93 + |d|..] == body
  {
    StatusReturns();
    TailChars();
    DigitsNoReturn(|body|);
    BlankLineAfter(StatusAndType, LengthField, Text.IntToString(|body|), HeaderTail, body);
  }

  /** With no blank line before the end of `t`, the first one is the one that ends `t`. */
  lemma {:induction false} BlankLineAfter(p: string, f: string, d: string, t: string, b: string)
    requires forall i {:trigger p[i]} :: 0 <= i < |p| && p[i] == '\r' ==> i + 2 == |p| || (i + 2 < |p| && p[i + 2] != '\r')
    requires |f| > 0 && '\r' !in f && '\r' !in d
    requires |t| == 28 && t[24..28] == HeaderEnd && forall i :: 0 <= i < 24 ==> t[i] != '\r' || t[i + 2] != '\r'
    ensures var w, e := p + f + d + t + b, |p| + |f| + |d|;
      Find(w, HeaderEnd, 0) == Some(e + 24) && w[e + 28..] == b
  {
    var w, e := p + f + d + t + b, |p| + |f| + |d|;
    HeadPairs(p, f, d, t, b);
    TailPairs(p, f, d, t, b);
    NoHeaderEndIn(w, 0, e);
    NoHeaderEndIn(w, e, e + 24);
    HeaderEndAt(p + f + d, t, b);
    FindIs(w, HeaderEnd, 0, e + 24);
  }

  /** The blank line that ends `t` ends the header, and the body follows it. */
  lemma HeaderEndAt(h: string, t: string, b: string)
    requires |t| == 28 && t[24..28] == HeaderEnd
    ensures Occurs(h + t + b, HeaderEnd, |h| + 24) && (h + t + b)[|h| + 28..] == b
  {
    var w := h + t + b;
    assert w[|h| + 24..|h| + 28] == t[24..28];
  }

  /**
   * Framing a response and reading it back: the reader finds the declared
   * length and the blank line of the header `write_response` builds, and
   * processes exactly the body.
   */
  lemma ReadWrittenResponse(body: string)
    requires |body| < ULongRange
    ensures ReadHeader(WriteResponse(body)) == Process(body)
  {
    var d := Text.IntToString(|body|);
    var w := WriteResponse(body);
    FieldOfResponse(body);
    LineOfResponse(body);
    BlankLineOfResponse(body);
    StoulOfDecimal(|body|);
    assert w[49 + |LengthField|..65 + |d|] == d;
    assert DeclaredLength(w) == Some(|body|);
  }

  // ------------------------------------------------------------ requests

  /** Where `process_request` sends an action. */
  datatype Route = ToAuth | ToRoom | UnknownAction

  function RouteOf(action: string): (r: Route)
    ensures r.ToAuth? <==> action == "register" || action == "login"
    ensures r.ToRoom? <==> action == "create_room" || action == "join_room" || action == "list_rooms"
  {
    if action == "register" || action == "login" then ToAuth
    else if action == "create_room" || action == "join_room" || action == "list_rooms" then ToRoom
    else UnknownAction
  }

  class Connection {
    var message: string
    var userId: int

    constructor()
      ensures message == "" && userId == 0
    {
      message := "";
      userId := 0;
    }

    /** `read_header`: a partial body is kept in `message`. */
    method OnHeader(chunk: string) returns (out: ReadOutcome)
      modifies this
      ensures out == ReadHeader(chunk)
      ensures message == if out.NeedMore? then out.partial else old(message)
      ensures userId == old(userId)
    {
      out := ReadHeader(chunk);
      if out.NeedMore? {
        message := out.partial;
      }
    }

    /** `read_body`: the chunk is appended; it ends the body when it covers what remains. */
    method OnBody(remaining: nat, chunk: string) returns (out: ReadOutcome)
      modifies this
      ensures message == old(message) + chunk
      ensures out == if |chunk| >= remaining then Process(message) else NeedMore(message, remaining - |chunk|)
      ensures userId == old(userId)
    {
      message := message + chunk;
      if |chunk| >= remaining {
        return Process(message);
      }
      return NeedMore(message, remaining - |chunk|);
    }

    /**
     * `process_request` on a parsed request (`None` when it does not
     * parse): room actions carry the session's user id as `user_id`; a
     * successful login takes the reply's `user_id` as the session's. A
     * controller is given as a function from request to reply, `None` when
     * it throws.
     */
    method ProcessRequest(request: Option<Json>, controllers: map<string, Json -> Option<Json>>)
      returns (reply: Json, call: Option<Json>)
      modifies this
      ensures request.None? || GetStr(request.value, "action").None? ==>
        reply == ErrorReply("Invalid request format") && call.None? && userId == old(userId)
      ensures request.Some? && GetStr(request.value, "action").Some? ==>
        var action := GetStr(request.value, "action").value;
        var kind := if RouteOf(action).ToAuth? then "auth" else "room";
        (RouteOf(action).UnknownAction? ==> reply == ErrorReply("Unknown action") && call.None? && userId == old(userId)) &&
        (!RouteOf(action).UnknownAction? && kind !in controllers ==>
           reply == ErrorReply("Internal server error") && call.None? && userId == old(userId)) &&
        (RouteOf(action).ToAuth? && kind in controllers ==> call == Some(request.value)) &&
        (RouteOf(action).ToRoom? && kind in controllers ==> call == Some(Put(request.value, "user_id", JNum(old(userId)))))
      ensures call.Some? ==>
        var action := GetStr(request.value, "action").value;
        var response := controllers[if RouteOf(action).ToAuth? then "auth" else "room"](call.value);
        var login := action == "login" && response.Some? && IsSuccess(response.value);
        (response.None? ==> reply == ErrorReply("Invalid request format") && userId == old(userId)) &&
        (login && GetInt(response.value, "user_id").None? ==> reply == ErrorReply("Invalid request format") && userId == old(userId)) &&
        (login && GetInt(response.value, "user_id").Some? ==> reply == response.value && userId == GetInt(response.value, "user_id").value) &&
        (response.Some? && !login ==> reply == response.value && userId == old(userId))
      ensures message == old(message)
    {
      if request.None? || GetStr(request.value, "action").None? {
        return ErrorReply("Invalid request format"), None;
      }
      var action := GetStr(request.value, "action").value;
      var route := RouteOf(action);
      if route.UnknownAction? {
        return ErrorReply("Unknown action"), None;
      }
      var kind := if route.ToAuth? then "auth" else "room";
      var forwarded := if route.ToRoom? then Put(request.value, "user_id", JNum(userId)) else request.value;
      if kind !in controllers {
        return ErrorReply("Internal server error"), None;
      }
      call := Some(forwarded);
      var response := controllers[kind](forwarded);
      if response.None? {
        return ErrorReply("Invalid request format"), call;
      }
      if action == "login" && IsSuccess(response.value) {
        var uid := GetInt(response.value, "user_id");
        if uid.None? {
          return ErrorReply("Invalid request format"), call;
        }
        userId := uid.value;
      }
      reply := response.value;
    }
  }
}
