/**
 * Collecting finished games into the frequency matrices
 * (GamerHintMatrixService.insertData) and serving the indicator
 * (GamerHintMatrixService.getIndicator).
 *
 * The request arrives as JSON; its player logs are modelled as values, and
 * each is turned into the `PlayerLog` object that generateTransitionXY
 * rewrites. Every game is processed in its own `try`: an exception ends that
 * game, and the cells it changed before throwing stay changed.
 */
module Ingest {
  import opened Wrappers
  import opened Text
  import opened MatrixDocs
  import opened MatrixCoords
  import opened MatrixUpdate

  /** One `PlayerLogRequestDto` as it arrives. */
  datatype LogValue = LogValue(classCode: int, roundScore: seq<int>,
                               round1: seq<Option<int>>, round2: seq<Option<int>>, round3: seq<Option<int>>)

  /** One `GameEndRequestDto`. */
  datatype GameValue = GameValue(patchVersion: string, mapId: int, playerCount: int, logs: seq<LogValue>)

  /** The class code that marks a faulty log. */
  const BugClass: int := 100

  function Sum(s: seq<int>): int
  {
    if |s| == 0 then 0 else Sum(s[..|s| - 1]) + s[|s| - 1]
  }

  function Max(a: int, b: int): int { if a >= b then a else b }

  /** `winnerScore`, starting at 0 and raised to each player's total in turn. */
  function WinnerScore(logs: seq<LogValue>): int
  {
    if |logs| == 0 then 0 else Max(WinnerScore(logs[..|logs| - 1]), Sum(logs[|logs| - 1].roundScore))
  }

  /** The balance part of `patchVersion` (third dot-separated field) is the current version. */
  predicate PatchMatches(patch: string, current: string)
  {
    var parts := Split(patch, '.');
    |parts| >= 3 && parts[2] == current
  }

  /**
   * The document loop for one player: the first `n` documents, each of the
   * player's class updated with the C or the T coordinates by its type.
   * Reading an id with fewer than four fields throws.
   */
  function UpdateDocsUpTo(docs: seq<Doc>, cls: string, ids: seq<MatrixKey>, coex: seq<Coord>, trans: seq<Coord>,
                          n: nat): (r: Applied<seq<Doc>>)
    requires n <= |docs|
    ensures |r.value| == |docs|
    decreases n
  {
    if n == 0 then Applied(docs, true)
    else
      var p := UpdateDocsUpTo(docs, cls, ids, coex, trans, n - 1);
      var d := docs[n - 1];
      var c := ClassSegment(d.id);
      if !p.ok then p
      else if c.None? then Applied(p.value, false)
      else if c.value != cls then p
      else
        var u := UpdateAll(d.matrixMap, ids, if d.typ == "C" then coex else trans);
        Applied(p.value[n - 1 := d.(matrixMap := u.value)], u.ok)
  }

  function UpdateDocs(docs: seq<Doc>, cls: string, ids: seq<MatrixKey>, coex: seq<Coord>, trans: seq<Coord>)
    : Applied<seq<Doc>>
  {
    UpdateDocsUpTo(docs, cls, ids, coex, trans, |docs|)
  }

  /** The work for one player: pick documents always, win documents when the total is the winning score. */
  function PlayerStep(docs: seq<Doc>, wins: seq<Doc>, mapId: int, playerCount: int, lv: LogValue, winner: int,
                      classIndex: map<int, map<int, int>>, bits: seq<bool>): Applied<(seq<Doc>, seq<Doc>)>
  {
    if lv.classCode == BugClass then Applied((docs, wins), true)
    else
      var ids := MatrixIds([mapId, -1], [playerCount, -1]);
      var coex := CoexistenceXY(lv.classCode, lv.round1, lv.round2, lv.round3, classIndex);
      var trans := TransitionXY(lv.classCode, lv.round1, lv.round2, lv.round3, classIndex, bits);
      if coex.None? || trans.None? then Applied((docs, wins), false)
      else
        var cls := IntToString(lv.classCode);
        var a := UpdateDocs(docs, cls, ids, coex.value, trans.value);
        if !a.ok then Applied((a.value, wins), false)
        else if Sum(lv.roundScore) != winner then Applied((a.value, wins), true)
        else
          var b := UpdateDocs(wins, cls, ids, coex.value, trans.value);
          Applied((a.value, b.value), b.ok)
  }

  /** The player loop of game `gi` over its first `n` logs, stopping at the first exception. */
  function PlayersUpTo(docs: seq<Doc>, wins: seq<Doc>, g: GameValue, gi: nat, winner: int,
                       classIndex: map<int, map<int, int>>, draws: (nat, nat) -> seq<bool>, n: nat)
    : Applied<(seq<Doc>, seq<Doc>)>
    requires n <= |g.logs|
  {
    if n == 0 then Applied((docs, wins), true)
    else
      var p := PlayersUpTo(docs, wins, g, gi, winner, classIndex, draws, n - 1);
      if !p.ok then p
      else PlayerStep(p.value.0, p.value.1, g.mapId, g.playerCount, g.logs[n - 1], winner, classIndex, draws(gi, n - 1))
  }

  /** One game inside its `try`: skipped when its patch is not current; an exception is swallowed. */
  function GameStep(docs: seq<Doc>, wins: seq<Doc>, g: GameValue, gi: nat, current: string,
                    classIndex: map<int, map<int, int>>, draws: (nat, nat) -> seq<bool>): (seq<Doc>, seq<Doc>)
  {
    if !PatchMatches(g.patchVersion, current) then (docs, wins)
    else PlayersUpTo(docs, wins, g, gi, WinnerScore(g.logs), classIndex, draws, |g.logs|).value
  }

  /** The first `n` games, in order; `draws(g, p)` are the random draws of player `p` of game `g`. */
  function GamesUpTo(docs: seq<Doc>, wins: seq<Doc>, games: seq<GameValue>, current: string,
                     classIndex: map<int, map<int, int>>, draws: (nat, nat) -> seq<bool>, n: nat)
    : (seq<Doc>, seq<Doc>)
    requires n <= |games|
  {
    if n == 0 then (docs, wins)
    else
      var p := GamesUpTo(docs, wins, games, current, classIndex, draws, n - 1);
      GameStep(p.0, p.1, games[n - 1], n - 1, current, classIndex, draws)
  }

  // ------------------------------------------------------------------ methods

  method SumScores(s: seq<int>) returns (t: int)
    ensures t == Sum(s)
  {
    t := 0;
    var i := 0;
    while i < |s|
      invariant 0 <= i <= |s|
      invariant t == Sum(s[..i])
    {
      assert s[..i + 1][..i] == s[..i];
      t := t + s[i];
      i := i + 1;
    }
    assert s[..i] == s;
  }

  method FindWinnerScore(logs: seq<LogValue>) returns (w: int)
    ensures w == WinnerScore(logs)
  {
    w := 0;
    var i := 0;
    while i < |logs|
      invariant 0 <= i <= |logs|
      invariant w == WinnerScore(logs[..i])
    {
      assert logs[..i + 1][..i] == logs[..i];
      var total := SumScores(logs[i].roundScore);
      w := Max(w, total);
      i := i + 1;
    }
    assert logs[..i] == logs;
  }

  /** One turn of the document loop, on document `n`: `ok` is false when the turn throws, which ends the loop. */
  method UpdateDocAt(docs: seq<Doc>, cls: string, ids: seq<MatrixKey>, coex: seq<Coord>, trans: seq<Coord>,
                     n: nat, r: seq<Doc>)
    returns (r': seq<Doc>, ok: bool)
    requires n < |docs| && UpdateDocsUpTo(docs, cls, ids, coex, trans, n) == Applied(r, true)
    ensures Applied(r', ok) == UpdateDocsUpTo(docs, cls, ids, coex, trans, n + 1)
    ensures !ok ==> Applied(r', ok) == UpdateDocs(docs, cls, ids, coex, trans)
  {
    r', ok := r, true;
    var d := docs[n];
    var c := ClassSegment(d.id);
    if c.None? {
      ok := false;
    } else if c.value == cls {
      var updated;
      updated, ok := UpdateMatrix(d, ids, if d.typ == "C" then coex else trans);
      r' := r[n := updated];
    }
    if !ok {
      UpdateDocsStops(docs, cls, ids, coex, trans, n + 1, |docs|);
    }
  }

  method UpdateDocsLoop(docs: seq<Doc>, cls: string, ids: seq<MatrixKey>, coex: seq<Coord>, trans: seq<Coord>)
    returns (r: seq<Doc>, ok: bool)
    ensures Applied(r, ok) == UpdateDocs(docs, cls, ids, coex, trans)
  {
    r := docs;
    for n := 0 to |docs|
      invariant UpdateDocsUpTo(docs, cls, ids, coex, trans, n) == Applied(r, true)
    {
      r, ok := UpdateDocAt(docs, cls, ids, coex, trans, n, r);
      if !ok {
        return;
      }
    }
    ok := true;
  }

  lemma {:induction false} UpdateDocsStops(docs: seq<Doc>, cls: string, ids: seq<MatrixKey>, coex: seq<Coord>,
                                           trans: seq<Coord>, k: nat, n: nat)
    requires k <= n <= |docs| && !UpdateDocsUpTo(docs, cls, ids, coex, trans, k).ok
    ensures UpdateDocsUpTo(docs, cls, ids, coex, trans, n) == UpdateDocsUpTo(docs, cls, ids, coex, trans, k)
    decreases n
  {
    if k < n {
      UpdateDocsStops(docs, cls, ids, coex, trans, k, n - 1);
    }
  }

  method ProcessPlayer(docs: seq<Doc>, wins: seq<Doc>, mapId: int, playerCount: int, lv: LogValue, winner: int,
                       classIndex: map<int, map<int, int>>, bits: seq<bool>)
    returns (d: seq<Doc>, w: seq<Doc>, ok: bool)
    ensures Applied((d, w), ok) == PlayerStep(docs, wins, mapId, playerCount, lv, winner, classIndex, bits)
  {
    d, w := docs, wins;
    if lv.classCode == BugClass {
      return d, w, true;
    }
    var ids := GenerateMatrixId([mapId, -1], [playerCount, -1]);
    var log := new PlayerLog(lv.classCode, lv.roundScore, lv.round1, lv.round2, lv.round3);
    var coex := GenerateCoexistenceXY(log, classIndex);
    var trans := GenerateTransitionXY(log, classIndex, bits);
    if coex.None? || trans.None? {
      return d, w, false;
    }
    var cls := IntToString(lv.classCode);
    d, ok := UpdateDocsLoop(docs, cls, ids, coex.value, trans.value);
    if !ok {
      return;
    }
    var total := SumScores(lv.roundScore);
    if total == winner {
      w, ok := UpdateDocsLoop(wins, cls, ids, coex.value, trans.value);
    }
  }

  lemma {:induction false} PlayersStop(docs: seq<Doc>, wins: seq<Doc>, g: GameValue, gi: nat, winner: int,
                                       classIndex: map<int, map<int, int>>, draws: (nat, nat) -> seq<bool>,
                                       k: nat, n: nat)
    requires k <= n <= |g.logs| && !PlayersUpTo(docs, wins, g, gi, winner, classIndex, draws, k).ok
    ensures PlayersUpTo(docs, wins, g, gi, winner, classIndex, draws, n)
      == PlayersUpTo(docs, wins, g, gi, winner, classIndex, draws, k)
    decreases n
  {
    if k < n {
      PlayersStop(docs, wins, g, gi, winner, classIndex, draws, k, n - 1);
    }
  }

  /** The player loop of one game; an exception ends it with the documents as they stand. */
  method PlayersLoop(docs: seq<Doc>, wins: seq<Doc>, g: GameValue, gi: nat, winner: int,
                     classIndex: map<int, map<int, int>>, draws: (nat, nat) -> seq<bool>)
    returns (d: seq<Doc>, w: seq<Doc>)
    ensures (d, w) == PlayersUpTo(docs, wins, g, gi, winner, classIndex, draws, |g.logs|).value
  {
    d, w := docs, wins;
    for p := 0 to |g.logs|
      invariant Applied((d, w), true) == PlayersUpTo(docs, wins, g, gi, winner, classIndex, draws, p)
    {
      var ok;
      d, w, ok := ProcessPlayer(d, w, g.mapId, g.playerCount, g.logs[p], winner, classIndex, draws(gi, p));
      if !ok {
        PlayersStop(docs, wins, g, gi, winner, classIndex, draws, p + 1, |g.logs|);
        return;
      }
    }
  }

  method ProcessGame(docs: seq<Doc>, wins: seq<Doc>, g: GameValue, gi: nat, current: string,
                     classIndex: map<int, map<int, int>>, draws: (nat, nat) -> seq<bool>)
    returns (d: seq<Doc>, w: seq<Doc>)
    ensures (d, w) == GameStep(docs, wins, g, gi, current, classIndex, draws)
  {
    d, w := docs, wins;
    if !PatchMatches(g.patchVersion, current) {
      return;
    }
    var winner := FindWinnerScore(g.logs);
    d, w := PlayersLoop(docs, wins, g, gi, winner, classIndex, draws);
  }

  /**
   * `insertData(dto)`: loads the pick and win documents of the current batch,
   * processes every game, saves every loaded document back, picks first, and
   * returns the pick documents, whose `@Version` the saves have advanced. A
   * save that throws (a version another writer advanced meanwhile) ends the
   * saving and propagates: `None`. `current` and `batch` are the version
   * service's state.
   */
  method InsertData(pickStore: seq<Doc>, winStore: seq<Doc>, current: string, batch: int, games: seq<GameValue>,
                    classIndex: map<int, map<int, int>>, draws: (nat, nat) -> seq<bool>)
    returns (docs: Option<seq<Doc>>, pickStore': seq<Doc>, winStore': seq<Doc>)
    ensures var r := GamesUpTo(GetDocumentByBatch(pickStore, current, batch), GetDocumentByBatch(winStore, current, batch),
                               games, current, classIndex, draws, |games|);
      var p := SaveUpTo(pickStore, r.0, |r.0|);
      var w := SaveUpTo(winStore, r.1, |r.1|);
      pickStore' == p.value && winStore' == (if p.ok then w.value else winStore) &&
      docs == (if p.ok && w.ok then Some(SavedAll(r.0)) else None)
  {
    var picks, wins := ProcessGames(GetDocumentByBatch(pickStore, current, batch),
                                     GetDocumentByBatch(winStore, current, batch), games, current, classIndex, draws);
    var pickOk, winOk;
    pickStore', pickOk := SaveEach(pickStore, picks);
    winStore', winOk := winStore, false;
    if pickOk {
      winStore', winOk := SaveEach(winStore, wins);
    }
    docs := if pickOk && winOk then Some(SavedAll(picks)) else None;
  }

  /** The game loop of `insertData`, each game inside its own `try`. */
  method ProcessGames(picks0: seq<Doc>, wins0: seq<Doc>, games: seq<GameValue>, current: string,
                      classIndex: map<int, map<int, int>>, draws: (nat, nat) -> seq<bool>)
    returns (picks: seq<Doc>, wins: seq<Doc>)
    ensures (picks, wins) == GamesUpTo(picks0, wins0, games, current, classIndex, draws, |games|)
  {
    picks, wins := picks0, wins0;
    for n := 0 to |games|
      invariant (picks, wins) == GamesUpTo(picks0, wins0, games, current, classIndex, draws, n)
    {
      picks, wins := ProcessGame(picks, wins, games[n], n, current, classIndex, draws);
    }
  }

  // ------------------------------------------------------------------ lemmas

  /**
   * The winning score is at least 0 and at least every player's total, and
   * it is 0 or some player's total: when every total is negative it is 0 and
   * nobody reaches it.
   */
  lemma {:induction false} WinnerScoreSpec(logs: seq<LogValue>)
    ensures WinnerScore(logs) >= 0
    ensures forall i :: 0 <= i < |logs| ==> Sum(logs[i].roundScore) <= WinnerScore(logs)
    ensures WinnerScore(logs) == 0 || exists i :: 0 <= i < |logs| && Sum(logs[i].roundScore) == WinnerScore(logs)
    decreases |logs|
  {
    if |logs| > 0 {
      var init := logs[..|logs| - 1];
      WinnerScoreSpec(init);
      assert forall i :: 0 <= i < |init| ==> init[i] == logs[i];
      if WinnerScore(logs) != 0 && WinnerScore(logs) == WinnerScore(init) {
        var i :| 0 <= i < |init| && Sum(init[i].roundScore) == WinnerScore(init);
        assert Sum(logs[i].roundScore) == WinnerScore(logs);
      }
    }
  }

  /**
   * After the document loop, a document the player's class does not own is
   * as it was; a finished loop replaced each owned document's matrices by
   * the update with the coordinates of its type.
   */
  lemma {:induction false} UpdateDocsAt(docs: seq<Doc>, cls: string, ids: seq<MatrixKey>, coex: seq<Coord>,
                                        trans: seq<Coord>, n: nat, k: nat)
    requires n <= |docs| && k < |docs|
    ensures var r := UpdateDocsUpTo(docs, cls, ids, coex, trans, n);
      (k >= n || ClassSegment(docs[k].id) != Some(cls) ==> r.value[k] == docs[k]) &&
      (r.ok && k < n && ClassSegment(docs[k].id) == Some(cls) ==>
        r.value[k] == docs[k].(matrixMap := UpdateAll(docs[k].matrixMap, ids,
                                                      if docs[k].typ == "C" then coex else trans).value))
  {
    if k >= n || ClassSegment(docs[k].id) != Some(cls) {
      UpdateDocsKeep(docs, cls, ids, coex, trans, n, k);
    } else if UpdateDocsUpTo(docs, cls, ids, coex, trans, n).ok {
      UpdateDocsOwned(docs, cls, ids, coex, trans, n, k);
    }
  }

  lemma {:induction false} UpdateDocsKeep(docs: seq<Doc>, cls: string, ids: seq<MatrixKey>, coex: seq<Coord>,
                                          trans: seq<Coord>, n: nat, k: nat)
    requires n <= |docs| && k < |docs|
    requires k >= n || ClassSegment(docs[k].id) != Some(cls)
    ensures UpdateDocsUpTo(docs, cls, ids, coex, trans, n).value[k] == docs[k]
    decreases n
  {
    if n > 0 {
      UpdateDocsKeep(docs, cls, ids, coex, trans, n - 1, k);
    }
  }

  lemma {:induction false} UpdateDocsOwned(docs: seq<Doc>, cls: string, ids: seq<MatrixKey>, coex: seq<Coord>,
                                           trans: seq<Coord>, n: nat, k: nat)
    requires k < n <= |docs| && ClassSegment(docs[k].id) == Some(cls)
    requires UpdateDocsUpTo(docs, cls, ids, coex, trans, n).ok
    ensures UpdateDocsUpTo(docs, cls, ids, coex, trans, n).value[k] ==
      docs[k].(matrixMap := UpdateAll(docs[k].matrixMap, ids, if docs[k].typ == "C" then coex else trans).value)
    decreases n
  {
    var p := UpdateDocsUpTo(docs, cls, ids, coex, trans, n - 1);
    assert p.ok;
    if k < n - 1 {
      UpdateDocsOwned(docs, cls, ids, coex, trans, n - 1, k);
    }
  }

  /** Reading the document's class field does not throw, and if the player owns it, its update finishes. */
  predicate DocFine(d: Doc, cls: string, ids: seq<MatrixKey>, coex: seq<Coord>, trans: seq<Coord>)
  {
    var c := ClassSegment(d.id);
    c.Some? && (c.value == cls ==> UpdateAll(d.matrixMap, ids, if d.typ == "C" then coex else trans).ok)
  }

  /** The document loop finishes exactly when every id has a class field and every owned document's update finishes. */
  lemma {:induction false} UpdateDocsOk(docs: seq<Doc>, cls: string, ids: seq<MatrixKey>, coex: seq<Coord>,
                                        trans: seq<Coord>, n: nat)
    requires n <= |docs|
    ensures UpdateDocsUpTo(docs, cls, ids, coex, trans, n).ok <==>
      forall k :: 0 <= k < n ==> DocFine(docs[k], cls, ids, coex, trans)
    decreases n
  {
    if n > 0 {
      UpdateDocsOk(docs, cls, ids, coex, trans, n - 1);
      var d := docs[n - 1];
      var p := UpdateDocsUpTo(docs, cls, ids, coex, trans, n - 1);
      var r := UpdateDocsUpTo(docs, cls, ids, coex, trans, n);
      if !p.ok {
        assert r == p;
      } else if ClassSegment(d.id).None? {
        assert !r.ok && !DocFine(d, cls, ids, coex, trans);
      } else if ClassSegment(d.id).value != cls {
        assert r == p && DocFine(d, cls, ids, coex, trans);
      } else {
        assert r.ok == UpdateAll(d.matrixMap, ids, if d.typ == "C" then coex else trans).ok;
      }
      assert r.ok == (p.ok && DocFine(d, cls, ids, coex, trans));
    }
  }

  /** A faulty log (class 100) changes no document. */
  lemma BugClassIgnored(docs: seq<Doc>, wins: seq<Doc>, mapId: int, playerCount: int, lv: LogValue, winner: int,
                        classIndex: map<int, map<int, int>>, bits: seq<bool>)
    requires lv.classCode == BugClass
    ensures PlayerStep(docs, wins, mapId, playerCount, lv, winner, classIndex, bits) == Applied((docs, wins), true)
  {
  }

  /**
   * A player below the winning score leaves the win documents alone; a
   * player whose pick updates all finish, and whose total equals the winning
   * score, updates them just as the pick documents (ties all count).
   */
  lemma WinDocsRule(docs: seq<Doc>, wins: seq<Doc>, mapId: int, playerCount: int, lv: LogValue, winner: int,
                    classIndex: map<int, map<int, int>>, bits: seq<bool>)
    ensures var r := PlayerStep(docs, wins, mapId, playerCount, lv, winner, classIndex, bits);
      var coex := CoexistenceXY(lv.classCode, lv.round1, lv.round2, lv.round3, classIndex);
      var trans := TransitionXY(lv.classCode, lv.round1, lv.round2, lv.round3, classIndex, bits);
      var ids := [MatrixKey(mapId, playerCount), MatrixKey(mapId, -1), MatrixKey(-1, playerCount), MatrixKey(-1, -1)];
      (Sum(lv.roundScore) != winner ==> r.value.1 == wins) &&
      (lv.classCode != BugClass && r.ok && coex.Some? && trans.Some? ==>
        r.value.0 == UpdateDocs(docs, IntToString(lv.classCode), ids, coex.value, trans.value).value &&
        (Sum(lv.roundScore) == winner ==>
          r.value.1 == UpdateDocs(wins, IntToString(lv.classCode), ids, coex.value, trans.value).value))
  {
    GameMatrixIds(mapId, playerCount);
  }

  /** A game whose patch string is not of the current version changes nothing. */
  lemma StaleGameIgnored(docs: seq<Doc>, wins: seq<Doc>, g: GameValue, gi: nat, current: string,
                         classIndex: map<int, map<int, int>>, draws: (nat, nat) -> seq<bool>)
    requires |Split(g.patchVersion, '.')| < 3 || Split(g.patchVersion, '.')[2] != current
    ensures GameStep(docs, wins, g, gi, current, classIndex, draws) == (docs, wins)
  {
  }

  /** Each document survives each game at its position: the loops change documents, never the lists. */
  lemma {:induction false} GamesKeepLength(docs: seq<Doc>, wins: seq<Doc>, games: seq<GameValue>, current: string,
                                           classIndex: map<int, map<int, int>>, draws: (nat, nat) -> seq<bool>,
                                           n: nat)
    requires n <= |games|
    ensures |GamesUpTo(docs, wins, games, current, classIndex, draws, n).0| == |docs|
    ensures |GamesUpTo(docs, wins, games, current, classIndex, draws, n).1| == |wins|
    decreases n
  {
    if n > 0 {
      GamesKeepLength(docs, wins, games, current, classIndex, draws, n - 1);
      var p := GamesUpTo(docs, wins, games, current, classIndex, draws, n - 1);
      var g := games[n - 1];
      if PatchMatches(g.patchVersion, current) {
        PlayersKeepLength(p.0, p.1, g, n - 1, WinnerScore(g.logs), classIndex, draws, |g.logs|);
      }
    }
  }

  lemma {:induction false} PlayersKeepLength(docs: seq<Doc>, wins: seq<Doc>, g: GameValue, gi: nat, winner: int,
                                             classIndex: map<int, map<int, int>>, draws: (nat, nat) -> seq<bool>,
                                             n: nat)
    requires n <= |g.logs|
    ensures |PlayersUpTo(docs, wins, g, gi, winner, classIndex, draws, n).value.0| == |docs|
    ensures |PlayersUpTo(docs, wins, g, gi, winner, classIndex, draws, n).value.1| == |wins|
    decreases n
  {
    if n > 0 {
      PlayersKeepLength(docs, wins, g, gi, winner, classIndex, draws, n - 1);
    }
  }

  // ------------------------------------------------------ saving back

  /** Position by position, the same ids and the same `@Version`s. */
  predicate SameRecords(a: seq<Doc>, b: seq<Doc>)
  {
    |a| == |b| && forall i :: 0 <= i < |a| ==> a[i].id == b[i].id && a[i].version == b[i].version
  }

  lemma SameRecordsTrans(a: seq<Doc>, b: seq<Doc>, c: seq<Doc>)
    requires SameRecords(a, b) && SameRecords(b, c)
    ensures SameRecords(a, c)
  {
  }

  /** The document loop changes matrices only: ids and versions stay. */
  lemma {:induction false} UpdateDocsRecords(docs: seq<Doc>, cls: string, ids: seq<MatrixKey>, coex: seq<Coord>,
                                             trans: seq<Coord>, n: nat)
    requires n <= |docs|
    ensures SameRecords(docs, UpdateDocsUpTo(docs, cls, ids, coex, trans, n).value)
    decreases n
  {
    if n > 0 {
      UpdateDocsRecords(docs, cls, ids, coex, trans, n - 1);
    }
  }

  lemma PlayerStepRecords(docs: seq<Doc>, wins: seq<Doc>, mapId: int, playerCount: int, lv: LogValue, winner: int,
                          classIndex: map<int, map<int, int>>, bits: seq<bool>)
    ensures var r := PlayerStep(docs, wins, mapId, playerCount, lv, winner, classIndex, bits).value;
      SameRecords(docs, r.0) && SameRecords(wins, r.1)
  {
    var ids := MatrixIds([mapId, -1], [playerCount, -1]);
    var coex := CoexistenceXY(lv.classCode, lv.round1, lv.round2, lv.round3, classIndex);
    var trans := TransitionXY(lv.classCode, lv.round1, lv.round2, lv.round3, classIndex, bits);
    if lv.classCode != BugClass && coex.Some? && trans.Some? {
      var cls := IntToString(lv.classCode);
      UpdateDocsRecords(docs, cls, ids, coex.value, trans.value, |docs|);
      UpdateDocsRecords(wins, cls, ids, coex.value, trans.value, |wins|);
    }
  }

  lemma {:induction false} PlayersRecords(docs: seq<Doc>, wins: seq<Doc>, g: GameValue, gi: nat, winner: int,
                                          classIndex: map<int, map<int, int>>, draws: (nat, nat) -> seq<bool>, n: nat)
    requires n <= |g.logs|
    ensures var r := PlayersUpTo(docs, wins, g, gi, winner, classIndex, draws, n).value;
      SameRecords(docs, r.0) && SameRecords(wins, r.1)
    decreases n
  {
    if n > 0 {
      PlayersRecords(docs, wins, g, gi, winner, classIndex, draws, n - 1);
      var p := PlayersUpTo(docs, wins, g, gi, winner, classIndex, draws, n - 1);
      if p.ok {
        var r := PlayerStep(p.value.0, p.value.1, g.mapId, g.playerCount, g.logs[n - 1], winner, classIndex, draws(gi, n - 1));
        PlayerStepRecords(p.value.0, p.value.1, g.mapId, g.playerCount, g.logs[n - 1], winner, classIndex, draws(gi, n - 1));
        SameRecordsTrans(docs, p.value.0, r.value.0);
        SameRecordsTrans(wins, p.value.1, r.value.1);
      }
    }
  }

  /** The game loop changes matrices only: every loaded document keeps its id and version. */
  lemma {:induction false} GamesRecords(docs: seq<Doc>, wins: seq<Doc>, games: seq<GameValue>, current: string,
                                        classIndex: map<int, map<int, int>>, draws: (nat, nat) -> seq<bool>, n: nat)
    requires n <= |games|
    ensures var r := GamesUpTo(docs, wins, games, current, classIndex, draws, n);
      SameRecords(docs, r.0) && SameRecords(wins, r.1)
    decreases n
  {
    if n > 0 {
      GamesRecords(docs, wins, games, current, classIndex, draws, n - 1);
      var p := GamesUpTo(docs, wins, games, current, classIndex, draws, n - 1);
      var g := games[n - 1];
      if PatchMatches(g.patchVersion, current) {
        var r := PlayersUpTo(p.0, p.1, g, n - 1, WinnerScore(g.logs), classIndex, draws, |g.logs|).value;
        PlayersRecords(p.0, p.1, g, n - 1, WinnerScore(g.logs), classIndex, draws, |g.logs|);
        SameRecordsTrans(docs, p.0, r.0);
        SameRecordsTrans(wins, p.1, r.1);
      }
    }
  }

  /** The documents of a query, changed in matrices only, are read from the store. */
  lemma LoadedReadFrom(store: seq<Doc>, pre: string, ds: seq<Doc>)
    requires UniqueIds(store) && forall j :: 0 <= j < |store| ==> store[j].version.Some?
    requires SameRecords(ByPrefix(store, pre), ds)
    ensures UniqueIds(ds)
    ensures forall k :: 0 <= k < |ds| ==> ReadFrom(store, ds[k])
  {
    var loaded := ByPrefix(store, pre);
    ByPrefixUnique(store, pre);
    forall k | 0 <= k < |ds|
      ensures ReadFrom(store, ds[k])
    {
      assert loaded[k] in store;
      var j :| 0 <= j < |store| && store[j] == loaded[k];
      assert store[j].id == ds[k].id && store[j].version == ds[k].version;
    }
    forall i, j | 0 <= i < j < |ds|
      ensures ds[i].id != ds[j].id
    {
      assert loaded[i].id != loaded[j].id;
    }
  }

  /**
   * Saving back the documents of a query, changed in matrices only, into a
   * collection with distinct ids whose documents all carry a version: every
   * save is an update that succeeds, the collection keeps its size, and every
   * document is stored with its version advanced.
   */
  lemma QuerySavesBack(store: seq<Doc>, pre: string, ds: seq<Doc>)
    requires UniqueIds(store) && forall j :: 0 <= j < |store| ==> store[j].version.Some?
    requires SameRecords(ByPrefix(store, pre), ds)
    ensures var w := SaveUpTo(store, ds, |ds|);
      w.ok && |w.value| == |store| && forall k :: 0 <= k < |ds| ==> Saved(ds[k]) in w.value
  {
    LoadedReadFrom(store, pre, ds);
    SaveBack(store, ds, |ds|);
  }

  /** The documents of such a query, saved, carry the loaded versions plus one, in order. */
  lemma QueryVersionsAdvance(store: seq<Doc>, pre: string, ds: seq<Doc>)
    requires forall j :: 0 <= j < |store| ==> store[j].version.Some?
    requires SameRecords(ByPrefix(store, pre), ds)
    ensures Advanced(ByPrefix(store, pre), SavedAll(ds))
  {
    var loaded := ByPrefix(store, pre);
    forall i | 0 <= i < |loaded|
      ensures loaded[i].version.Some?
    {
      assert loaded[i] in store;
    }
    SavedAdvances(loaded, ds);
  }

  /** `saved` is `loaded`, position by position, with the same ids and every version one higher. */
  predicate Advanced(loaded: seq<Doc>, saved: seq<Doc>)
  {
    |saved| == |loaded| &&
    forall i :: 0 <= i < |loaded| ==>
      saved[i].id == loaded[i].id && loaded[i].version.Some? && saved[i].version == Some(loaded[i].version.value + 1)
  }

  lemma SavedAdvances(loaded: seq<Doc>, ds: seq<Doc>)
    requires SameRecords(loaded, ds) && forall i :: 0 <= i < |loaded| ==> loaded[i].version.Some?
    ensures Advanced(loaded, SavedAll(ds))
  {
  }

  /**
   * Ingesting into collections with distinct ids whose documents all carry a
   * version: every save of `insertData` is an update that succeeds, each
   * loaded document is stored with its version one higher, and the returned
   * pick documents are the loaded ones, in order, with those versions.
   */
  lemma InsertDataSaves(pickStore: seq<Doc>, winStore: seq<Doc>, current: string, batch: int, games: seq<GameValue>,
                        classIndex: map<int, map<int, int>>, draws: (nat, nat) -> seq<bool>)
    requires UniqueIds(pickStore) && forall j :: 0 <= j < |pickStore| ==> pickStore[j].version.Some?
    requires UniqueIds(winStore) && forall j :: 0 <= j < |winStore| ==> winStore[j].version.Some?
    ensures var loaded := GetDocumentByBatch(pickStore, current, batch);
      var r := GamesUpTo(loaded, GetDocumentByBatch(winStore, current, batch), games, current, classIndex, draws, |games|);
      var p := SaveUpTo(pickStore, r.0, |r.0|);
      var w := SaveUpTo(winStore, r.1, |r.1|);
      p.ok && w.ok && |p.value| == |pickStore| && |w.value| == |winStore| &&
      (forall k :: 0 <= k < |r.0| ==> Saved(r.0[k]) in p.value) &&
      (forall k :: 0 <= k < |r.1| ==> Saved(r.1[k]) in w.value) &&
      Advanced(loaded, SavedAll(r.0))
  {
    var pre := BatchPrefix(current, batch);
    var loaded := GetDocumentByBatch(pickStore, current, batch);
    var wl := GetDocumentByBatch(winStore, current, batch);
    var r := GamesUpTo(loaded, wl, games, current, classIndex, draws, |games|);
    GamesRecords(loaded, wl, games, current, classIndex, draws, |games|);
    QuerySavesBack(pickStore, pre, r.0);
    QuerySavesBack(winStore, pre, r.1);
    QueryVersionsAdvance(pickStore, pre, r.0);
  }

  // ------------------------------------------------------------ getIndicator

  /** The `"-1/-1"` key: every map, every player count. */
  const AllKey: MatrixKey := MatrixKey(-1, -1)

  /**
   * A copy of the document's id, type, version and card pool holding only
   * the `"-1/-1"` matrix. A document without that matrix gets none here,
   * where the source puts the key with a null matrix; a matrix map holds no
   * nulls in this model, and generated documents always have the key.
   */
  function Extract(d: Doc): Doc
  {
    Doc(d.id, None, d.typ, d.cardPool, if AllKey in d.matrixMap then map[AllKey := d.matrixMap[AllKey]] else map[],
        d.version)
  }

  function ExtractAll(ds: seq<Doc>): (r: seq<Doc>)
    ensures |r| == |ds|
  {
    if |ds| == 0 then [] else ExtractAll(ds[..|ds| - 1]) + [Extract(ds[|ds| - 1])]
  }

  /** `getIndicator()`: `null` at batch 1; otherwise the previous batch, reduced to its "all" matrices. */
  function Indicator(store: seq<Doc>, current: string, batch: int): Option<seq<Doc>>
  {
    if batch == 1 then None else Some(ExtractAll(GetDocumentByBatch(store, current, batch - 1)))
  }

  method GetIndicator(store: seq<Doc>, current: string, batch: int) returns (r: Option<seq<Doc>>)
    ensures r == Indicator(store, current, batch)
  {
    if batch == 1 {
      return None;
    }
    var temp := GetDocumentByBatch(store, current, batch - 1);
    var results: seq<Doc> := [];
    var i := 0;
    while i < |temp|
      invariant 0 <= i <= |temp|
      invariant results == ExtractAll(temp[..i])
    {
      assert temp[..i + 1][..i] == temp[..i];
      var d := temp[i];
      var m: map<MatrixKey, Matrix> := map[];
      if AllKey in d.matrixMap {
        m := m[AllKey := d.matrixMap[AllKey]];
      }
      results := results + [Doc(d.id, None, d.typ, d.cardPool, m, d.version)];
      i := i + 1;
    }
    assert temp[..i] == temp;
    return Some(results);
  }

  /**
   * Every served document is one of the previous batch's, in order, with the
   * same id, type, version and card pool, and with at most the one matrix
   * for every map and player count, unchanged.
   */
  lemma {:induction false} ExtractAllSpec(ds: seq<Doc>)
    ensures forall i :: 0 <= i < |ds| ==>
      var e := ExtractAll(ds)[i];
      e.id == ds[i].id && e.typ == ds[i].typ && e.version == ds[i].version && e.cardPool == ds[i].cardPool &&
      e.matrixMap.Keys <= {AllKey} &&
      (AllKey in ds[i].matrixMap ==> AllKey in e.matrixMap && e.matrixMap[AllKey] == ds[i].matrixMap[AllKey])
    decreases |ds|
  {
    if |ds| > 0 {
      ExtractAllSpec(ds[..|ds| - 1]);
    }
  }
}
