/**
 * The logging service's `sendLog`: every item of a batch goes to Kafka, and
 * the `gameEnd` items are gathered into one `{"data":[...]}` payload for
 * the indicator. An item is its JSON text together with its `eventType`
 * member, `None` when that is missing or not a string (the cast to
 * `String` then throws and the batch is abandoned).
 */
module LogService {
  import opened Wrappers
  import Text

  datatype LogItem = LogItem(json: string, eventType: Option<string>)

  const IndicatorEventType := "gameEnd"
  const PayloadStart := "{\"data\":["
  const PayloadEnd := "]}"

  /** What `sendLog` did: the Kafka messages in order, the indicator payload if sent, and whether it threw. */
  datatype Outcome = Outcome(kafka: seq<string>, indicator: Option<string>, aborted: bool)

  predicate IsGameEnd(item: LogItem)
  {
    item.eventType == Some(IndicatorEventType)
  }

  /** The JSON text of each item, in order. */
  function Texts(items: seq<LogItem>): (r: seq<string>)
    ensures |r| == |items| && forall i :: 0 <= i < |items| ==> r[i] == items[i].json
  {
    if |items| == 0 then [] else [items[0].json] + Texts(items[1..])
  }

  /** The JSON text of the `gameEnd` items, in order. */
  function GameEnds(items: seq<LogItem>): (r: seq<string>)
    ensures |r| <= |items|
    ensures r == [] <==> forall i :: 0 <= i < |items| ==> !IsGameEnd(items[i])
    ensures forall x :: x in r ==> exists i :: 0 <= i < |items| && IsGameEnd(items[i]) && items[i].json == x
  {
    if |items| == 0 then []
    else if IsGameEnd(items[0]) then [items[0].json] + GameEnds(items[1..])
    else
      var rest := GameEnds(items[1..]);
      assert forall x :: x in rest ==> exists i :: 1 <= i < |items| && IsGameEnd(items[i]) && items[i].json == x by {
        forall x | x in rest
          ensures exists i :: 1 <= i < |items| && IsGameEnd(items[i]) && items[i].json == x
        {
          var j :| 0 <= j < |items[1..]| && IsGameEnd(items[1..][j]) && items[1..][j].json == x;
          assert items[j + 1] == items[1..][j];
        }
      }
      rest
  }

  /** Gathering a batch in two parts gathers each part, in order. */
  lemma {:induction false} GameEndsAppend(a: seq<LogItem>, b: seq<LogItem>)
    ensures GameEnds(a + b) == GameEnds(a) + GameEnds(b)
  {
    if |a| > 0 {
      assert (a + b)[1..] == a[1..] + b;
      GameEndsAppend(a[1..], b);
    } else {
      assert a + b == b;
    }
  }

  /** The payload for the indicator: the texts joined by commas, inside `{"data":[` and `]}`. */
  function Payload(texts: seq<string>): (p: string)
    ensures |p| >= |PayloadStart| + |PayloadEnd|
    ensures p[..|PayloadStart|] == PayloadStart && p[|p| - |PayloadEnd|..] == PayloadEnd
  {
    PayloadStart + Text.Join(texts, ',') + PayloadEnd
  }

  /** The first item without a string `eventType`. */
  function FirstUntyped(items: seq<LogItem>): (r: Option<nat>)
    ensures r.Some? ==> r.value < |items| && items[r.value].eventType.None?
    ensures r.Some? ==> forall j :: 0 <= j < r.value ==> items[j].eventType.Some?
    ensures r.None? ==> forall j :: 0 <= j < |items| ==> items[j].eventType.Some?
  {
    if |items| == 0 then None
    else if items[0].eventType.None? then Some(0)
    else
      var r := FirstUntyped(items[1..]);
      if r.None? then None else Some(r.value + 1)
  }

  /**
   * `sendLog` on a batch: an item without a string `eventType` stops the
   * batch after its own Kafka message, and the indicator hears nothing;
   * otherwise every item goes to Kafka in order and the indicator receives
   * the `gameEnd` items, if there are any.
   */
  function SendLogOutcome(items: seq<LogItem>): (r: Outcome)
    ensures r.aborted <==> FirstUntyped(items).Some?
    ensures r.aborted ==> r.kafka == Texts(items[..FirstUntyped(items).value + 1]) && r.indicator.None?
    ensures !r.aborted ==> r.kafka == Texts(items)
    ensures r.indicator.Some? <==> !r.aborted && exists i :: 0 <= i < |items| && IsGameEnd(items[i])
    ensures r.indicator.Some? ==> r.indicator.value == Payload(GameEnds(items))
  {
    var k := FirstUntyped(items);
    if k.Some? then Outcome(Texts(items[..k.value + 1]), None, true)
    else
      var picked := GameEnds(items);
      Outcome(Texts(items), if picked == [] then None else Some(Payload(picked)), false)
  }

  /** Each text followed by a comma, as the loop appends them. */
  function Terminated(texts: seq<string>): string
  {
    if |texts| == 0 then "" else texts[0] + "," + Terminated(texts[1..])
  }

  lemma {:induction false} TerminatedSnoc(texts: seq<string>, x: string)
    ensures Terminated(texts + [x]) == Terminated(texts) + x + ","
  {
    if |texts| > 0 {
      assert (texts + [x])[1..] == texts[1..] + [x];
      TerminatedSnoc(texts[1..], x);
    } else {
      assert texts + [x] == [x];
    }
  }

  lemma Extend(start: string, body: string, x: string)
    ensures start + body + x + "," == start + (body + x + ",")
  {
  }

  /** Dropping the last comma leaves the texts joined by commas. */
  lemma {:induction false} TerminatedIsJoin(texts: seq<string>)
    requires |texts| > 0
    ensures Terminated(texts) == Text.Join(texts, ',') + ","
  {
    if |texts| > 1 {
      TerminatedIsJoin(texts[1..]);
    }
  }

  /** One more item read: its text and, if it ends a game, its place in the payload. */
  lemma Step(items: seq<LogItem>, i: nat)
    requires i < |items|
    ensures Texts(items[..i + 1]) == Texts(items[..i]) + [items[i].json]
    ensures GameEnds(items[..i + 1]) == GameEnds(items[..i]) + if IsGameEnd(items[i]) then [items[i].json] else []
  {
    assert items[..i + 1] == items[..i] + [items[i]];
    GameEndsAppend(items[..i], [items[i]]);
    assert GameEnds([items[i]]) == if IsGameEnd(items[i]) then [items[i].json] else [];
  }

  /** Closing the builder: the last comma goes and `]}` follows. */
  lemma Close(texts: seq<string>)
    requires |texts| > 0
    ensures var sb := PayloadStart + Terminated(texts);
      |sb| > 0 && sb[..|sb| - 1] + PayloadEnd == Payload(texts)
  {
    TerminatedIsJoin(texts);
    var sb := PayloadStart + Terminated(texts);
    assert sb == PayloadStart + Text.Join(texts, ',') + ",";
    assert sb[..|sb| - 1] == PayloadStart + Text.Join(texts, ',');
  }

  /** The outcome of a batch whose item `i` is the first without a string `eventType`. */
  lemma AbortedOutcome(items: seq<LogItem>, i: nat)
    requires i < |items| && items[i].eventType.None?
    requires forall j :: 0 <= j < i ==> items[j].eventType.Some?
    ensures SendLogOutcome(items) == Outcome(Texts(items[..i + 1]), None, true)
  {
    assert FirstUntyped(items) == Some(i);
  }

  /** The outcome of a batch whose items all have a string `eventType`. */
  lemma CompletedOutcome(items: seq<LogItem>)
    requires forall j :: 0 <= j < |items| ==> items[j].eventType.Some?
    ensures var picked := GameEnds(items);
      SendLogOutcome(items) == Outcome(Texts(items), if picked == [] then None else Some(Payload(picked)), false)
  {
  }

  /**
   * The state of `sendLog` after the first `i` items: their texts sent to
   * Kafka, each with a string `eventType`, and the `gameEnd` texts in the
   * builder, each followed by a comma.
   */
  predicate Sent(items: seq<LogItem>, i: nat, kafka: seq<string>, sb: string, check: bool)
    requires i <= |items|
  {
    kafka == Texts(items[..i]) &&
    (forall j :: 0 <= j < i ==> items[j].eventType.Some?) &&
    sb == PayloadStart + Terminated(GameEnds(items[..i])) &&
    (check <==> GameEnds(items[..i]) != [])
  }

  /** One turn of the loop of `sendLog`, on item `i`: it stops the batch when that item has no string `eventType`. */
  method SendOne(items: seq<LogItem>, i: nat, kafka: seq<string>, sb: string, check: bool)
    returns (kafka': seq<string>, sb': string, check': bool, stop: bool)
    requires i < |items| && Sent(items, i, kafka, sb, check)
    ensures stop ==> FirstUntyped(items) == Some(i) && kafka' == Texts(items[..i + 1])
    ensures !stop ==> Sent(items, i + 1, kafka', sb', check')
  {
    Step(items, i);
    kafka', sb', check', stop := kafka + [items[i].json], sb, check, false;
    if items[i].eventType.None? {
      assert FirstUntyped(items) == Some(i);
      stop := true;
      return;
    }
    if items[i].eventType.value == IndicatorEventType {
      TerminatedSnoc(GameEnds(items[..i]), items[i].json);
      Extend(PayloadStart, Terminated(GameEnds(items[..i])), items[i].json);
      sb' := sb + items[i].json + ",";
      check' := true;
    } else {
      assert GameEnds(items[..i]) + [] == GameEnds(items[..i]);
    }
  }

  /**
   * The loop of `sendLog` over the batch: each item's text goes to Kafka,
   * and each `gameEnd` text is appended to the builder with a comma. It
   * stops at the first item without a string `eventType`.
   */
  method SendEach(items: seq<LogItem>) returns (kafka: seq<string>, sb: string, check: bool, aborted: bool)
    ensures aborted <==> FirstUntyped(items).Some?
    ensures aborted ==> kafka == Texts(items[..FirstUntyped(items).value + 1])
    ensures !aborted ==> kafka == Texts(items) && sb == PayloadStart + Terminated(GameEnds(items))
    ensures !aborted ==> (check <==> GameEnds(items) != [])
  {
    sb := PayloadStart;
    check := false;
    kafka := [];
    for i := 0 to |items|
      invariant Sent(items, i, kafka, sb, check)
    {
      var stop;
      kafka, sb, check, stop := SendOne(items, i, kafka, sb, check);
      if stop {
        return kafka, sb, check, true;
      }
    }
    assert items[..|items|] == items;
    aborted := false;
  }

  /** `sendLog`: the loop, then the payload closed and sent when it holds a `gameEnd` item. */
  method SendLog(items: seq<LogItem>) returns (kafka: seq<string>, indicator: Option<string>, aborted: bool)
    ensures Outcome(kafka, indicator, aborted) == SendLogOutcome(items)
  {
    var sb, check;
    kafka, sb, check, aborted := SendEach(items);
    indicator := None;
    if aborted {
      AbortedOutcome(items, FirstUntyped(items).value);
      return;
    }
    CompletedOutcome(items);
    if check {
      Close(GameEnds(items));
      sb := sb[..|sb| - 1] + PayloadEnd;
      indicator := Some(sb);
    }
  }
}
