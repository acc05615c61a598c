/**
 * Frequency-matrix documents of the indicator service, their identifiers and
 * the queries that select them (GamerHintMatrixSubService, document half).
 *
 * A document id is `version/batch/type/class`; a matrix id inside a document
 * is `map/playerCount`, where -1 in either place means "all". The matrix ids
 * are kept as (map, playerCount) keys; `MatrixId` renders the string form and
 * is injective, so a map keyed by either holds the same entries. A matrix for a
 * class whose card pool has K cards has K+1 rows of K columns: row i < K is
 * "card i already taken", row K is the start of the game.
 */
module MatrixDocs {
  import opened Wrappers
  import opened Text

  type Matrix = seq<seq<int>>

  /**
   * A MatrixDocument (pick counts, `batchCount` set) or a WinMatrixDocument
   * (win counts, which has no `batchCount` field: `None`). `version` is the
   * `@Version` counter of optimistic locking: `null` on a document not yet
   * stored, 0 once it is inserted, one more after every save (`Save`).
   */
  datatype Doc = Doc(
    id: string,
    batchCount: Option<int>,
    typ: string,
    cardPool: Option<seq<int>>,
    matrixMap: map<MatrixKey, Matrix>,
    version: Option<int>)

  /** Coexistence ("C") and transition ("T") documents, in this order. */
  const Types: seq<string> := ["C", "T"]

  datatype MatrixKey = MatrixKey(mapId: int, playerNum: int)

  /** `mapId + "/" + playerNum`. */
  function MatrixId(k: MatrixKey): string
  {
    IntToString(k.mapId) + "/" + IntToString(k.playerNum)
  }

  function DocId(version: string, batch: int, typ: string, cls: string): string
  {
    version + "/" + (IntToString(batch) + "/" + (typ + "/" + cls))
  }

  /** `String.join("/", version, batch + "", "")`: the id prefix of one batch. */
  function BatchPrefix(version: string, batch: int): string
  {
    version + "/" + (IntToString(batch) + "/")
  }

  /** The ids are the `String.join("/", ...)` of their fields. */
  lemma JoinTwo(x: string, y: string)
    ensures Join([x, y], '/') == x + "/" + y
  {
    assert [x, y][1..] == [y];
  }

  lemma JoinCons(x: string, rest: seq<string>)
    requires |rest| >= 1
    ensures Join([x] + rest, '/') == x + "/" + Join(rest, '/')
  {
    assert ([x] + rest)[1..] == rest;
  }

  /** The ids are the `String.join("/", ...)` of their fields. */
  lemma IdsAreJoins(version: string, batch: int, typ: string, cls: string)
    ensures DocId(version, batch, typ, cls) == Join([version, IntToString(batch), typ, cls], '/')
    ensures BatchPrefix(version, batch) == Join([version, IntToString(batch), ""], '/')
  {
    var b := IntToString(batch);
    JoinTwo(typ, cls);
    JoinCons(b, [typ, cls]);
    assert [b] + [typ, cls] == [b, typ, cls];
    JoinCons(version, [b, typ, cls]);
    assert [version] + [b, typ, cls] == [version, b, typ, cls];
    JoinTwo(b, "");
    JoinCons(version, [b, ""]);
    assert [version] + [b, ""] == [version, b, ""];
  }

  // ---------------------------------------------------------------- skeletons

  /** K+1 rows of K zeros. */
  predicate IsSkeleton(m: Matrix, k: nat)
  {
    |m| == k + 1 && forall i :: 0 <= i < |m| ==> |m[i]| == k && forall j :: 0 <= j < k ==> m[i][j] == 0
  }

  function Zeros(n: nat): (r: seq<int>)
    ensures |r| == n
  {
    if n == 0 then [] else Zeros(n - 1) + [0]
  }

  function Rows(row: seq<int>, n: nat): (m: Matrix)
    ensures |m| == n
  {
    if n == 0 then [] else Rows(row, n - 1) + [row]
  }

  function Skeleton(k: nat): Matrix
  {
    Rows(Zeros(k), k + 1)
  }

  lemma {:induction false} ZerosAt(n: nat, j: nat)
    requires j < n
    ensures Zeros(n)[j] == 0
  {
    if j < n - 1 {
      ZerosAt(n - 1, j);
    }
  }

  lemma {:induction false} RowsAt(row: seq<int>, n: nat, i: nat)
    requires i < n
    ensures Rows(row, n)[i] == row
  {
    if i < n - 1 {
      RowsAt(row, n - 1, i);
    }
  }

  /** The skeleton has the K+1 by K zero shape, and it is the only matrix that does. */
  lemma SkeletonShape(m: Matrix, k: nat)
    ensures IsSkeleton(Skeleton(k), k)
    ensures IsSkeleton(m, k) ==> m == Skeleton(k)
  {
    forall i | 0 <= i < k + 1
      ensures Skeleton(k)[i] == Zeros(k) && forall j :: 0 <= j < k ==> Zeros(k)[j] == 0
    {
      RowsAt(Zeros(k), k + 1, i);
      forall j | 0 <= j < k ensures Zeros(k)[j] == 0 {
        ZerosAt(k, j);
      }
    }
    if IsSkeleton(m, k) {
      forall i | 0 <= i < k + 1 ensures m[i] == Skeleton(k)[i] { }
    }
  }

  /**
   * generateSkeletonMatrix: the card pool of `classCode` decides K; a class
   * without a card pool is a `NullPointerException`, here `None`. Each row is
   * a copy of the zero row.
   */
  method GenerateSkeletonMatrix(cardPoolMap: map<int, seq<int>>, classCode: int) returns (r: Option<Matrix>)
    ensures r.Some? <==> classCode in cardPoolMap
    ensures r.Some? ==> r.value == Skeleton(|cardPoolMap[classCode]|)
  {
    if classCode !in cardPoolMap {
      return None;
    }
    var k := |cardPoolMap[classCode]|;
    var row: seq<int> := [];
    var col := 0;
    while col < k
      invariant 0 <= col <= k && row == Zeros(col)
    {
      row := row + [0];
      col := col + 1;
    }
    var m: Matrix := [];
    var i := 0;
    while i < k + 1
      invariant 0 <= i <= k + 1 && m == Rows(row, i)
    {
      m := m + [row];
      i := i + 1;
    }
    return Some(m);
  }

  // --------------------------------------------------------------- matrix ids

  /** The ids of one map for the first `n` player counts. */
  function IdRow(mapId: int, players: seq<int>, n: nat): (r: seq<MatrixKey>)
    requires n <= |players|
    ensures |r| == n
  {
    if n == 0 then [] else IdRow(mapId, players, n - 1) + [MatrixKey(mapId, players[n - 1])]
  }

  /** Map-major: every player count for the first map, then the next map. */
  function IdsUpTo(maps: seq<int>, players: seq<int>, n: nat): seq<MatrixKey>
    requires n <= |maps|
  {
    if n == 0 then [] else IdsUpTo(maps, players, n - 1) + IdRow(maps[n - 1], players, |players|)
  }

  function MatrixIds(maps: seq<int>, players: seq<int>): seq<MatrixKey>
  {
    IdsUpTo(maps, players, |maps|)
  }

  method GenerateMatrixId(maps: seq<int>, players: seq<int>) returns (ids: seq<MatrixKey>)
    ensures ids == MatrixIds(maps, players)
  {
    ids := [];
    var i := 0;
    while i < |maps|
      invariant 0 <= i <= |maps|
      invariant ids == IdsUpTo(maps, players, i)
    {
      var row := MapIds(maps[i], players);
      ids := ids + row;
      i := i + 1;
    }
  }

  /** The inner loop of generateMatrixId: one map with every player count. */
  method MapIds(mapId: int, players: seq<int>) returns (row: seq<MatrixKey>)
    ensures row == IdRow(mapId, players, |players|)
  {
    row := [];
    var j := 0;
    while j < |players|
      invariant 0 <= j <= |players|
      invariant row == IdRow(mapId, players, j)
    {
      row := row + [MatrixKey(mapId, players[j])];
      j := j + 1;
    }
  }

  /** Distinct keys render as distinct matrix ids. */
  lemma MatrixIdInjective(k1: MatrixKey, k2: MatrixKey)
    requires MatrixId(k1) == MatrixId(k2)
    ensures k1 == k2
  {
    IntToStringPlain(k1.mapId);
    IntToStringPlain(k2.mapId);
    SlashPrefix(IntToString(k1.mapId), IntToString(k1.playerNum), IntToString(k2.mapId), IntToString(k2.playerNum));
    IntToStringInjective(k1.mapId, k2.mapId);
    IntToStringInjective(k1.playerNum, k2.playerNum);
  }

  lemma MulStep(n: nat, b: nat)
    requires n >= 1
    ensures n * b == (n - 1) * b + b
  {
  }

  lemma {:induction false} IdsUpToLength(maps: seq<int>, players: seq<int>, n: nat)
    requires n <= |maps|
    ensures |IdsUpTo(maps, players, n)| == n * |players|
  {
    if n > 0 {
      IdsUpToLength(maps, players, n - 1);
      MulStep(n, |players|);
    }
  }

  lemma {:induction false} IdRowMembers(mapId: int, players: seq<int>, n: nat, m: int, p: int)
    requires n <= |players|
    ensures MatrixKey(m, p) in IdRow(mapId, players, n) <==> m == mapId && p in players[..n]
  {
    if n > 0 {
      IdRowMembers(mapId, players, n - 1, m, p);
      assert players[..n] == players[..n - 1] + [players[n - 1]];
    }
  }

  lemma {:induction false} IdsUpToMembers(maps: seq<int>, players: seq<int>, n: nat, m: int, p: int)
    requires n <= |maps|
    ensures MatrixKey(m, p) in IdsUpTo(maps, players, n) <==> m in maps[..n] && p in players
  {
    if n > 0 {
      IdsUpToMembers(maps, players, n - 1, m, p);
      IdRowMembers(maps[n - 1], players, |players|, m, p);
      assert maps[..n] == maps[..n - 1] + [maps[n - 1]];
      assert players[..|players|] == players;
    }
  }

  /** |maps| * |players| ids; an id is generated exactly for a (map, player count) pair of the two pools. */
  lemma MatrixIdsSpec(maps: seq<int>, players: seq<int>, m: int, p: int)
    ensures |MatrixIds(maps, players)| == |maps| * |players|
    ensures MatrixKey(m, p) in MatrixIds(maps, players) <==> m in maps && p in players
  {
    IdsUpToLength(maps, players, |maps|);
    IdsUpToMembers(maps, players, |maps|, m, p);
    assert maps[..|maps|] == maps;
  }

  /** The four matrices one game updates: its map and player count, each alone or as "all". */
  lemma GameMatrixIds(mapId: int, playerCount: int)
    ensures MatrixIds([mapId, -1], [playerCount, -1]) ==
      [MatrixKey(mapId, playerCount), MatrixKey(mapId, -1), MatrixKey(-1, playerCount), MatrixKey(-1, -1)]
  {
    var ms, ps := [mapId, -1], [playerCount, -1];
    assert IdRow(mapId, ps, 2) == [MatrixKey(mapId, playerCount), MatrixKey(mapId, -1)];
    assert IdRow(-1, ps, 2) == [MatrixKey(-1, playerCount), MatrixKey(-1, -1)];
    assert IdsUpTo(ms, ps, 1) == IdRow(mapId, ps, 2);
  }

  // ---------------------------------------------------------------- documents

  /** Every one of the first `n` ids mapped to a fresh skeleton. */
  function SkeletonMapUpTo(ids: seq<MatrixKey>, n: nat, k: nat): map<MatrixKey, Matrix>
    requires n <= |ids|
  {
    if n == 0 then map[] else SkeletonMapUpTo(ids, n - 1, k)[ids[n - 1] := Skeleton(k)]
  }

  function SkeletonMap(ids: seq<MatrixKey>, k: nat): map<MatrixKey, Matrix>
  {
    SkeletonMapUpTo(ids, |ids|, k)
  }

  lemma {:induction false} SkeletonMapUpToSpec(ids: seq<MatrixKey>, n: nat, k: nat)
    requires n <= |ids|
    ensures forall id :: id in SkeletonMapUpTo(ids, n, k) <==> id in ids[..n]
    ensures forall id :: id in SkeletonMapUpTo(ids, n, k) ==> SkeletonMapUpTo(ids, n, k)[id] == Skeleton(k)
  {
    if n > 0 {
      SkeletonMapUpToSpec(ids, n - 1, k);
      assert ids[..n] == ids[..n - 1] + [ids[n - 1]];
    }
  }

  /** The keys are exactly the matrix ids, and each holds the skeleton. */
  lemma SkeletonMapSpec(ids: seq<MatrixKey>, k: nat)
    ensures forall id :: id in SkeletonMap(ids, k) <==> id in ids
    ensures forall id :: id in SkeletonMap(ids, k) ==> SkeletonMap(ids, k)[id] == Skeleton(k)
  {
    SkeletonMapUpToSpec(ids, |ids|, k);
    assert ids[..|ids|] == ids;
  }

  function NewDoc(version: string, batch: int, typ: string, classCode: int,
                  cardPoolMap: map<int, seq<int>>, ids: seq<MatrixKey>, batchField: Option<int>): Doc
  {
    Doc(DocId(version, batch, typ, IntToString(classCode)), batchField, typ,
        if classCode in cardPoolMap then Some(cardPoolMap[classCode]) else None,
        if |ids| == 0 || classCode !in cardPoolMap then map[] else SkeletonMap(ids, |cardPoolMap[classCode]|),
        None)
  }

  /** The first `n` classes of the pool all have a card pool. */
  predicate AllKnown(classPool: seq<int>, n: nat, cardPoolMap: map<int, seq<int>>)
    requires n <= |classPool|
  {
    n == 0 || (AllKnown(classPool, n - 1, cardPoolMap) && classPool[n - 1] in cardPoolMap)
  }

  lemma {:induction false} AllKnownSpec(classPool: seq<int>, n: nat, cardPoolMap: map<int, seq<int>>)
    requires n <= |classPool|
    ensures AllKnown(classPool, n, cardPoolMap) <==> forall k :: 0 <= k < n ==> classPool[k] in cardPoolMap
  {
    if n > 0 {
      AllKnownSpec(classPool, n - 1, cardPoolMap);
    }
  }

  /** With no matrix id nothing asks for a card pool; otherwise every class of the pool needs one. */
  predicate PoolsKnown(classPool: seq<int>, cardPoolMap: map<int, seq<int>>, ids: seq<MatrixKey>)
  {
    |ids| == 0 || AllKnown(classPool, |classPool|, cardPoolMap)
  }

  /** The documents of one class for the first `n` types. */
  function TypeDocs(version: string, batch: int, c: int, cardPoolMap: map<int, seq<int>>,
                    ids: seq<MatrixKey>, batchField: Option<int>, n: nat): (r: seq<Doc>)
    requires n <= |Types|
    ensures |r| == n
  {
    if n == 0 then []
    else TypeDocs(version, batch, c, cardPoolMap, ids, batchField, n - 1) +
         [NewDoc(version, batch, Types[n - 1], c, cardPoolMap, ids, batchField)]
  }

  /** The C and the T document of one class. */
  function ClassDocs(version: string, batch: int, c: int, cardPoolMap: map<int, seq<int>>,
                     ids: seq<MatrixKey>, batchField: Option<int>): seq<Doc>
  {
    TypeDocs(version, batch, c, cardPoolMap, ids, batchField, |Types|)
  }

  lemma ClassDocsPair(version: string, batch: int, c: int, cardPoolMap: map<int, seq<int>>,
                      ids: seq<MatrixKey>, batchField: Option<int>)
    ensures ClassDocs(version, batch, c, cardPoolMap, ids, batchField) ==
      [NewDoc(version, batch, "C", c, cardPoolMap, ids, batchField), NewDoc(version, batch, "T", c, cardPoolMap, ids, batchField)]
  {
    assert TypeDocs(version, batch, c, cardPoolMap, ids, batchField, 1) == [NewDoc(version, batch, "C", c, cardPoolMap, ids, batchField)];
  }

  /** Class-major: the C and T document of the first class, then of the next class. */
  function DocsUpTo(version: string, batch: int, classPool: seq<int>, n: nat, cardPoolMap: map<int, seq<int>>,
                    ids: seq<MatrixKey>, batchField: Option<int>): (r: seq<Doc>)
    requires n <= |classPool|
    ensures |r| == 2 * n
  {
    if n == 0 then []
    else
      DocsUpTo(version, batch, classPool, n - 1, cardPoolMap, ids, batchField)
        + ClassDocs(version, batch, classPool[n - 1], cardPoolMap, ids, batchField)
  }

  function FreshDocs(version: string, batch: int, classPool: seq<int>, cardPoolMap: map<int, seq<int>>,
                     ids: seq<MatrixKey>, batchField: Option<int>): seq<Doc>
  {
    DocsUpTo(version, batch, classPool, |classPool|, cardPoolMap, ids, batchField)
  }

  /** The loop putting one skeleton per matrix id into a new document's matrixMap. */
  method BuildMatrixMap(ids: seq<MatrixKey>, cardPoolMap: map<int, seq<int>>, classCode: int)
    returns (r: Option<map<MatrixKey, Matrix>>)
    ensures r.Some? <==> |ids| == 0 || classCode in cardPoolMap
    ensures r.Some? ==> r.value == if |ids| == 0 then map[] else SkeletonMap(ids, |cardPoolMap[classCode]|)
  {
    var mm: map<MatrixKey, Matrix> := map[];
    var i := 0;
    while i < |ids|
      invariant 0 <= i <= |ids|
      invariant i > 0 ==> classCode in cardPoolMap
      invariant i > 0 ==> mm == SkeletonMapUpTo(ids, i, |cardPoolMap[classCode]|)
      invariant i == 0 ==> mm == map[]
    {
      var sk := GenerateSkeletonMatrix(cardPoolMap, classCode);
      if sk.None? {
        return None;
      }
      mm := mm[ids[i] := sk.value];
      i := i + 1;
    }
    return Some(mm);
  }

  /** The inner loop over the two types for one class. */
  method BuildClassDocs(version: string, batch: int, c: int, cardPoolMap: map<int, seq<int>>,
                        ids: seq<MatrixKey>, batchField: Option<int>) returns (r: Option<seq<Doc>>)
    ensures r.Some? <==> |ids| == 0 || c in cardPoolMap
    ensures r.Some? ==> r.value == ClassDocs(version, batch, c, cardPoolMap, ids, batchField)
  {
    var pair: seq<Doc> := [];
    var t := 0;
    while t < |Types|
      invariant 0 <= t <= |Types|
      invariant t > 0 ==> |ids| == 0 || c in cardPoolMap
      invariant pair == TypeDocs(version, batch, c, cardPoolMap, ids, batchField, t)
    {
      var mm := BuildMatrixMap(ids, cardPoolMap, c);
      if mm.None? {
        return None;
      }
      var doc := Doc(DocId(version, batch, Types[t], IntToString(c)), batchField, Types[t],
                     if c in cardPoolMap then Some(cardPoolMap[c]) else None, mm.value, None);
      pair := pair + [doc];
      t := t + 1;
    }
    return Some(pair);
  }

  /** The loop shared by generateDocument and generateWinDocument. */
  method BuildDocuments(version: string, batch: int, classPool: seq<int>, mapPool: seq<int>,
                        playerNumPool: seq<int>, cardPoolMap: map<int, seq<int>>, batchField: Option<int>)
    returns (r: Option<seq<Doc>>)
    ensures r.Some? <==> PoolsKnown(classPool, cardPoolMap, MatrixIds(mapPool, playerNumPool))
    ensures r.Some? ==> r.value == FreshDocs(version, batch, classPool, cardPoolMap, MatrixIds(mapPool, playerNumPool), batchField)
  {
    var ids := GenerateMatrixId(mapPool, playerNumPool);
    r := BuildAllClassDocs(version, batch, classPool, cardPoolMap, ids, batchField);
  }

  /** The outer loop over the class pool. */
  method BuildAllClassDocs(version: string, batch: int, classPool: seq<int>, cardPoolMap: map<int, seq<int>>,
                           ids: seq<MatrixKey>, batchField: Option<int>) returns (r: Option<seq<Doc>>)
    ensures r.Some? <==> PoolsKnown(classPool, cardPoolMap, ids)
    ensures r.Some? ==> r.value == FreshDocs(version, batch, classPool, cardPoolMap, ids, batchField)
  {
    var docs: seq<Doc> := [];
    var i := 0;
    while i < |classPool|
      invariant 0 <= i <= |classPool|
      invariant |ids| == 0 || AllKnown(classPool, i, cardPoolMap)
      invariant docs == DocsUpTo(version, batch, classPool, i, cardPoolMap, ids, batchField)
    {
      var pair := BuildClassDocs(version, batch, classPool[i], cardPoolMap, ids, batchField);
      if pair.None? {
        AllKnownSpec(classPool, |classPool|, cardPoolMap);
        return None;
      }
      docs := docs + pair.value;
      i := i + 1;
    }
    return Some(docs);
  }

  /** generateDocument: pick documents carry their batch number. */
  method GenerateDocument(version: string, batch: int, classPool: seq<int>, mapPool: seq<int>,
                          playerNumPool: seq<int>, cardPoolMap: map<int, seq<int>>)
    returns (r: Option<seq<Doc>>)
    ensures r.Some? <==> PoolsKnown(classPool, cardPoolMap, MatrixIds(mapPool, playerNumPool))
    ensures r.Some? ==> r.value == FreshDocs(version, batch, classPool, cardPoolMap, MatrixIds(mapPool, playerNumPool), Some(batch))
  {
    r := BuildDocuments(version, batch, classPool, mapPool, playerNumPool, cardPoolMap, Some(batch));
  }

  /** generateWinDocument: win documents have no batch field. */
  method GenerateWinDocument(version: string, batch: int, classPool: seq<int>, mapPool: seq<int>,
                             playerNumPool: seq<int>, cardPoolMap: map<int, seq<int>>)
    returns (r: Option<seq<Doc>>)
    ensures r.Some? <==> PoolsKnown(classPool, cardPoolMap, MatrixIds(mapPool, playerNumPool))
    ensures r.Some? ==> r.value == FreshDocs(version, batch, classPool, cardPoolMap, MatrixIds(mapPool, playerNumPool), None)
  {
    r := BuildDocuments(version, batch, classPool, mapPool, playerNumPool, cardPoolMap, None);
  }

  /** Two documents per class, in class-major order: C then T for each class. */
  lemma {:induction false} DocsUpToAt(version: string, batch: int, classPool: seq<int>, n: nat,
                                      cardPoolMap: map<int, seq<int>>, ids: seq<MatrixKey>, batchField: Option<int>, k: nat)
    requires k < n <= |classPool|
    ensures var ds := DocsUpTo(version, batch, classPool, n, cardPoolMap, ids, batchField);
      [ds[2 * k], ds[2 * k + 1]] == ClassDocs(version, batch, classPool[k], cardPoolMap, ids, batchField)
  {
    var prev := DocsUpTo(version, batch, classPool, n - 1, cardPoolMap, ids, batchField);
    var last := ClassDocs(version, batch, classPool[n - 1], cardPoolMap, ids, batchField);
    PairAt(prev, last, k);
    if k < n - 1 {
      DocsUpToAt(version, batch, classPool, n - 1, cardPoolMap, ids, batchField, k);
    }
  }

  lemma PairAt<T>(prev: seq<T>, last: seq<T>, k: nat)
    requires |last| == 2 && 2 * k + 1 < |prev| + 2
    ensures 2 * k + 1 < |prev| ==> (prev + last)[2 * k] == prev[2 * k] && (prev + last)[2 * k + 1] == prev[2 * k + 1]
    ensures 2 * k == |prev| ==> [(prev + last)[2 * k], (prev + last)[2 * k + 1]] == last
  {
  }

  lemma FreshDocsAt(version: string, batch: int, classPool: seq<int>,
                    cardPoolMap: map<int, seq<int>>, ids: seq<MatrixKey>, batchField: Option<int>, k: nat)
    requires k < |classPool|
    ensures |FreshDocs(version, batch, classPool, cardPoolMap, ids, batchField)| == 2 * |classPool|
    ensures FreshDocs(version, batch, classPool, cardPoolMap, ids, batchField)[2 * k] ==
        NewDoc(version, batch, "C", classPool[k], cardPoolMap, ids, batchField)
    ensures FreshDocs(version, batch, classPool, cardPoolMap, ids, batchField)[2 * k + 1] ==
        NewDoc(version, batch, "T", classPool[k], cardPoolMap, ids, batchField)
  {
    DocsUpToAt(version, batch, classPool, |classPool|, cardPoolMap, ids, batchField, k);
    ClassDocsPair(version, batch, classPool[k], cardPoolMap, ids, batchField);
  }

  /** Every freshly built document is new to the store: its `@Version` is `null`. */
  lemma FreshDocsNew(version: string, batch: int, classPool: seq<int>,
                     cardPoolMap: map<int, seq<int>>, ids: seq<MatrixKey>, batchField: Option<int>)
    ensures var fd := FreshDocs(version, batch, classPool, cardPoolMap, ids, batchField);
      forall k :: 0 <= k < |fd| ==> fd[k].version.None?
  {
    var fd := FreshDocs(version, batch, classPool, cardPoolMap, ids, batchField);
    forall k | 0 <= k < |fd|
      ensures fd[k].version.None?
    {
      FreshDocsAt(version, batch, classPool, cardPoolMap, ids, batchField, k / 2);
    }
  }

  /** Each fresh document has the batch id, the class's card pool and one K+1 by K zero matrix per matrix id. */
  lemma NewDocFields(version: string, batch: int, typ: string, classCode: int,
                     cardPoolMap: map<int, seq<int>>, ids: seq<MatrixKey>, batchField: Option<int>)
    requires |ids| == 0 || classCode in cardPoolMap
    ensures var d := NewDoc(version, batch, typ, classCode, cardPoolMap, ids, batchField);
      d.id == DocId(version, batch, typ, IntToString(classCode)) && d.typ == typ &&
      d.batchCount == batchField && d.version == None &&
      (d.cardPool.Some? <==> classCode in cardPoolMap) &&
      (forall id :: id in d.matrixMap <==> id in ids) &&
      (forall id :: id in d.matrixMap ==> IsSkeleton(d.matrixMap[id], |cardPoolMap[classCode]|))
  {
    if classCode in cardPoolMap {
      SkeletonMapSpec(ids, |cardPoolMap[classCode]|);
      SkeletonShape([], |cardPoolMap[classCode]|);
    }
  }

  // ------------------------------------------------------------------ queries

  /** The documents whose id starts with `p`, in store order (an anchored literal regex). */
  function ByPrefix(store: seq<Doc>, p: string): (r: seq<Doc>)
    ensures forall d :: d in r <==> d in store && HasPrefix(d.id, p)
    ensures |r| <= |store|
    decreases |store|
  {
    if store == [] then []
    else
      assert store == [store[0]] + store[1..];
      (if HasPrefix(store[0].id, p) then [store[0]] else []) + ByPrefix(store[1..], p)
  }

  /** getDocumentByBatch / getWinDocumentByBatch. */
  function GetDocumentByBatch(store: seq<Doc>, version: string, batch: int): seq<Doc>
  {
    ByPrefix(store, BatchPrefix(version, batch))
  }

  /**
   * The batch prefix picks exactly one (version, batch): batch 1 does not
   * select batch 10, because the prefix ends with a slash.
   */
  lemma BatchPrefixSelects(version: string, batch: int, v: string, b: int, typ: string, cls: string)
    requires '/' !in version && '/' !in v
    ensures HasPrefix(DocId(v, b, typ, cls), BatchPrefix(version, batch)) <==> v == version && b == batch
  {
    var rest := IntToString(b) + "/" + (typ + "/" + cls);
    if HasPrefix(DocId(v, b, typ, cls), BatchPrefix(version, batch)) {
      IntToStringPlain(batch);
      IntToStringPlain(b);
      SlashPrefix(version, IntToString(batch) + "/", v, rest);
      assert IntToString(batch) + "/" == IntToString(batch) + "/" + "";
      SlashPrefix(IntToString(batch), "", IntToString(b), typ + "/" + cls);
      IntToStringInjective(batch, b);
    }
  }

  /** haveDocument as written: any id that starts with the version string. */
  predicate HaveDocument(store: seq<Doc>, version: string)
  {
    exists d :: d in store && HasPrefix(d.id, version)
  }

  /** haveDocument as intended: an id whose version field is exactly `version`. */
  predicate HaveVersionDocument(store: seq<Doc>, version: string)
  {
    exists d :: d in store && HasPrefix(d.id, version + "/")
  }

  /** `haveDocument`: as written when `asWritten`, else as intended. */
  predicate HaveDocumentIf(store: seq<Doc>, version: string, asWritten: bool)
  {
    if asWritten then HaveDocument(store, version) else HaveVersionDocument(store, version)
  }

  /** Version "1" is reported present when only version "12" has documents. */
  lemma HaveDocumentFinding()
    ensures var store := [Doc(DocId("12", 1, "C", "3"), Some(1), "C", None, map[], None)];
      HaveDocument(store, "1") && !HaveVersionDocument(store, "1")
  {
    var d := Doc(DocId("12", 1, "C", "3"), Some(1), "C", None, map[], None);
    assert d.id == "12/1/C/3";
    assert HasPrefix(d.id, "1");
    assert !HasPrefix(d.id, "1/") by { assert d.id[1] == '2'; }
    assert [d][0] == d;
  }

  /** The corrected test matches a document exactly when its version field is the version asked for. */
  lemma VersionPrefixExact(version: string, v: string, b: int, typ: string, cls: string)
    requires '/' !in version && '/' !in v
    ensures HasPrefix(DocId(v, b, typ, cls), version + "/") <==> v == version
  {
    var rest := IntToString(b) + "/" + (typ + "/" + cls);
    if HasPrefix(DocId(v, b, typ, cls), version + "/") {
      assert version + "/" == version + "/" + "";
      SlashPrefix(version, "", v, rest);
    }
  }

  /** The largest `batchCount` among documents that have one; Mongo sorts missing fields last. */
  function MaxBatch(docs: seq<Doc>): (r: Option<int>)
    ensures r.None? <==> forall d :: d in docs ==> d.batchCount.None?
    ensures r.Some? ==> (exists d :: d in docs && d.batchCount == r) &&
                        forall d :: d in docs && d.batchCount.Some? ==> d.batchCount.value <= r.value
    decreases |docs|
  {
    if docs == [] then None
    else
      assert docs == [docs[0]] + docs[1..];
      var rest := MaxBatch(docs[1..]);
      match docs[0].batchCount
      case None => rest
      case Some(n) => if rest.Some? && rest.value > n then rest else Some(n)
  }

  /**
   * getLatestBatchCount: the outer `None` is the `NullPointerException` when no
   * id starts with the version; the inner value is the document's batchCount.
   */
  function GetLatestBatchCount(store: seq<Doc>, version: string): Option<Option<int>>
  {
    var ds := ByPrefix(store, version);
    if ds == [] then None else Some(MaxBatch(ds))
  }

  /**
   * No document of the version: the `NullPointerException`. Otherwise the
   * largest batchCount among its documents, or none when none has one.
   */
  lemma LatestBatchCountSpec(store: seq<Doc>, version: string)
    ensures GetLatestBatchCount(store, version).None? <==> !HaveDocument(store, version)
    ensures GetLatestBatchCount(store, version) == Some(None) <==>
      HaveDocument(store, version) && forall d :: d in store && HasPrefix(d.id, version) ==> d.batchCount.None?
    ensures forall n :: GetLatestBatchCount(store, version) == Some(Some(n)) ==>
      (exists d :: d in store && HasPrefix(d.id, version) && d.batchCount == Some(n)) &&
      forall d :: d in store && HasPrefix(d.id, version) && d.batchCount.Some? ==> d.batchCount.value <= n
  {
    var ds := ByPrefix(store, version);
    if ds != [] {
      assert ds[0] in ds;
    }
    if HaveDocument(store, version) {
      var d :| d in store && HasPrefix(d.id, version);
      assert d in ds;
    }
  }

  /** The class field of a document id: `id.split("/")[3]`, `None` where Java indexes out of bounds. */
  function ClassSegment(id: string): Option<string>
  {
    var parts := Split(id, '/');
    if |parts| > 3 then Some(parts[3]) else None
  }

  lemma ClassSegmentOfDocId(version: string, batch: int, typ: string, cls: string)
    requires '/' !in version && '/' !in typ && '/' !in cls && cls != ""
    ensures Split(DocId(version, batch, typ, cls), '/') == [version, IntToString(batch), typ, cls]
    ensures ClassSegment(DocId(version, batch, typ, cls)) == Some(cls)
  {
    var parts := [version, IntToString(batch), typ, cls];
    IntToStringPlain(batch);
    IdsAreJoins(version, batch, typ, cls);
    SplitOfJoin(parts, '/');
  }

  /** Two ids of one version and batch are equal only when their types and classes are. */
  lemma DocIdInjective(version: string, batch: int, t1: string, c1: int, t2: string, c2: int)
    requires '/' !in version && '/' !in t1 && '/' !in t2
    requires DocId(version, batch, t1, IntToString(c1)) == DocId(version, batch, t2, IntToString(c2))
    ensures t1 == t2 && c1 == c2
  {
    IntToStringPlain(c1);
    IntToStringPlain(c2);
    ClassSegmentOfDocId(version, batch, t1, IntToString(c1));
    ClassSegmentOfDocId(version, batch, t2, IntToString(c2));
    IntToStringInjective(c1, c2);
  }

  /** With no class twice in the pool, the fresh documents have distinct ids. */
  lemma FreshDocsUnique(version: string, batch: int, classPool: seq<int>,
                        cardPoolMap: map<int, seq<int>>, ids: seq<MatrixKey>, batchField: Option<int>)
    requires '/' !in version
    requires forall i, j :: 0 <= i < j < |classPool| ==> classPool[i] != classPool[j]
    ensures UniqueIds(FreshDocs(version, batch, classPool, cardPoolMap, ids, batchField))
  {
    var fd := FreshDocs(version, batch, classPool, cardPoolMap, ids, batchField);
    forall i, j | 0 <= i < j < |fd|
      ensures fd[i].id != fd[j].id
    {
      var ki, kj := i / 2, j / 2;
      FreshDocsAt(version, batch, classPool, cardPoolMap, ids, batchField, ki);
      FreshDocsAt(version, batch, classPool, cardPoolMap, ids, batchField, kj);
      var ti, tj := Types[i - 2 * ki], Types[j - 2 * kj];
      assert fd[i].id == DocId(version, batch, ti, IntToString(classPool[ki]));
      assert fd[j].id == DocId(version, batch, tj, IntToString(classPool[kj]));
      if fd[i].id == fd[j].id {
        DocIdInjective(version, batch, ti, classPool[ki], tj, classPool[kj]);
        assert false;
      }
    }
  }

  // -------------------------------------------------------------------- saving

  /** The position of the first of the first `n` documents whose id is `id`. */
  function FindIdUpTo(store: seq<Doc>, id: string, n: nat): (r: Option<nat>)
    requires n <= |store|
    ensures r.Some? ==> r.value < n && store[r.value].id == id
    ensures forall j :: 0 <= j < n && (r.None? || j < r.value) ==> store[j].id != id
  {
    if n == 0 then None
    else
      var prev := FindIdUpTo(store, id, n - 1);
      if prev.Some? then prev else if store[n - 1].id == id then Some(n - 1) else None
  }

  function FindId(store: seq<Doc>, id: string): Option<nat>
  {
    FindIdUpTo(store, id, |store|)
  }

  /** The document as a successful save stores it: `@Version` 0 when it was `null`, one more otherwise. */
  function Saved(d: Doc): Doc
  {
    d.(version := Some(if d.version.None? then 0 else d.version.value + 1))
  }

  /** Each document as a successful save stores it. */
  function SavedAll(ds: seq<Doc>): seq<Doc>
  {
    seq(|ds|, i requires 0 <= i < |ds| => Saved(ds[i]))
  }

  /**
   * `repository.save` of a document with an `@Version` field. A `null`
   * version marks a new document: it is inserted, and the insert throws on
   * an id already stored. Any other version makes it an update of the stored
   * document with the same id and the same version, which it replaces in
   * place; when there is no such document the save throws (optimistic
   * locking). The stored document, and the saved entity itself, carry the
   * advanced version.
   */
  function Save(store: seq<Doc>, d: Doc): Option<seq<Doc>>
  {
    var found := FindIdUpTo(store, d.id, |store|);
    if d.version.None? then
      if found.Some? then None else Some(store + [Saved(d)])
    else if found.Some? && store[found.value].version == d.version then Some(store[found.value := Saved(d)])
    else None
  }

  /**
   * A new document is saved iff its id is not stored; an update iff the
   * first stored document with its id has its version. A successful save
   * stores the document with version 0, or with one more than it had; every
   * document with another id keeps its position; the store grows only by an
   * insert, and nothing but the saved document enters it.
   */
  lemma SaveSpec(store: seq<Doc>, d: Doc)
    ensures var taken := exists j :: 0 <= j < |store| && store[j].id == d.id;
      d.version.None? ==> (Save(store, d).Some? <==> !taken)
    ensures d.version.Some? ==>
      (Save(store, d).Some? <==>
         exists j :: 0 <= j < |store| && store[j].id == d.id && store[j].version == d.version &&
                     forall i :: 0 <= i < j ==> store[i].id != d.id)
    ensures var s := Save(store, d);
      var saved := d.(version := Some(if d.version.None? then 0 else d.version.value + 1));
      s.Some? ==>
        saved in s.value &&
        |s.value| == (if d.version.None? then |store| + 1 else |store|) &&
        (forall j :: 0 <= j < |store| && store[j].id != d.id ==> s.value[j] == store[j]) &&
        (forall x :: x in s.value ==> x == saved || x in store)
  {
    var found := FindIdUpTo(store, d.id, |store|);
    var s := Save(store, d);
    if found.Some? {
      var f := found.value;
      forall j | 0 <= j < |store| && store[j].id == d.id && (forall i :: 0 <= i < j ==> store[i].id != d.id)
        ensures j == f
      {
      }
      if s.Some? {
        assert s.value[f] == Saved(d);
      }
    } else if s.Some? {
      assert s.value[|store|] == Saved(d);
    }
  }

  predicate UniqueIds(store: seq<Doc>)
  {
    forall i, j :: 0 <= i < j < |store| ==> store[i].id != store[j].id
  }

  /** A successful save keeps ids unique. */
  lemma SaveKeepsUnique(store: seq<Doc>, d: Doc)
    requires UniqueIds(store)
    ensures Save(store, d).Some? ==> UniqueIds(Save(store, d).value)
  {
  }

  /** The save loop over the first `n` documents; a save that throws ends it. */
  function SaveUpTo(store: seq<Doc>, ds: seq<Doc>, n: nat): Applied<seq<Doc>>
    requires n <= |ds|
  {
    if n == 0 then Applied(store, true)
    else
      var p := SaveUpTo(store, ds, n - 1);
      if !p.ok then p
      else
        var s := Save(p.value, ds[n - 1]);
        if s.None? then Applied(p.value, false) else Applied(s.value, true)
  }

  /** Once a save has thrown, later documents are not saved. */
  lemma {:induction false} SaveUpToStops(store: seq<Doc>, ds: seq<Doc>, n: nat, m: nat)
    requires n <= m <= |ds|
    requires !SaveUpTo(store, ds, n).ok
    ensures SaveUpTo(store, ds, m) == SaveUpTo(store, ds, n)
    decreases m
  {
    if m > n {
      SaveUpToStops(store, ds, n, m - 1);
    }
  }

  /** `repository.save(doc)` for every document, in order; a save that throws ends the loop. */
  method SaveEach(store: seq<Doc>, ds: seq<Doc>) returns (r: seq<Doc>, ok: bool)
    ensures Applied(r, ok) == SaveUpTo(store, ds, |ds|)
  {
    r := store;
    for i := 0 to |ds|
      invariant Applied(r, true) == SaveUpTo(store, ds, i)
    {
      var s := Save(r, ds[i]);
      if s.None? {
        SaveUpToStops(store, ds, i + 1, |ds|);
        return r, false;
      }
      r := s.value;
    }
    return r, true;
  }

  /**
   * The save loop leaves every stored document whose id none of the saved
   * documents carries in its place, and adds nothing but saved documents,
   * each with its advanced version.
   */
  lemma {:induction false} SaveUpToKeeps(store: seq<Doc>, ds: seq<Doc>, n: nat)
    requires n <= |ds|
    ensures var r := SaveUpTo(store, ds, n).value;
      |r| >= |store| &&
      (forall j :: 0 <= j < |store| && (forall k :: 0 <= k < n ==> ds[k].id != store[j].id) ==> r[j] == store[j]) &&
      (forall x :: x in r ==> x in store || exists k :: 0 <= k < n && x == Saved(ds[k]))
    decreases n
  {
    if n > 0 {
      SaveUpToKeeps(store, ds, n - 1);
      var p := SaveUpTo(store, ds, n - 1);
      var d := ds[n - 1];
      if p.ok && Save(p.value, d).Some? {
        var r := Save(p.value, d).value;
        SaveSpec(p.value, d);
        forall j | 0 <= j < |store| && (forall k :: 0 <= k < n ==> ds[k].id != store[j].id)
          ensures r[j] == store[j]
        {
          assert ds[n - 1].id != store[j].id;
        }
        forall x | x in r
          ensures x in store || exists k :: 0 <= k < n && x == Saved(ds[k])
        {
          if x == Saved(d) {
            assert x == Saved(ds[n - 1]);
          }
        }
      }
    }
  }

  /** When the loop completes on documents with distinct ids, every one of them is stored, advanced. */
  lemma {:induction false} SaveUpToContains(store: seq<Doc>, ds: seq<Doc>, n: nat)
    requires n <= |ds| && UniqueIds(ds)
    ensures SaveUpTo(store, ds, n).ok ==> forall k :: 0 <= k < n ==> Saved(ds[k]) in SaveUpTo(store, ds, n).value
    decreases n
  {
    if n > 0 && SaveUpTo(store, ds, n).ok {
      SaveUpToContains(store, ds, n - 1);
      var p := SaveUpTo(store, ds, n - 1).value;
      var d := ds[n - 1];
      var r := Save(p, d).value;
      SaveSpec(p, d);
      forall k | 0 <= k < n
        ensures Saved(ds[k]) in r
      {
        if k < n - 1 {
          var j :| 0 <= j < |p| && p[j] == Saved(ds[k]);
          assert p[j].id == ds[k].id != d.id;
          assert r[j] == p[j];
        }
      }
    }
  }

  /** A query of a store with distinct ids returns documents with distinct ids. */
  lemma {:induction false} ByPrefixUnique(store: seq<Doc>, p: string)
    requires UniqueIds(store)
    ensures UniqueIds(ByPrefix(store, p))
    decreases |store|
  {
    if store != [] {
      var rest := store[1..];
      assert UniqueIds(rest) by {
        forall i, j | 0 <= i < j < |rest|
          ensures rest[i].id != rest[j].id
        {
          assert rest[i] == store[i + 1] && rest[j] == store[j + 1];
        }
      }
      ByPrefixUnique(rest, p);
      var t := ByPrefix(rest, p);
      forall i | 0 <= i < |t|
        ensures t[i].id != store[0].id
      {
        assert t[i] in rest;
        var k :| 0 <= k < |rest| && rest[k] == t[i];
        assert store[k + 1] == t[i];
      }
      var h := if HasPrefix(store[0].id, p) then [store[0]] else [];
      var r := h + t;
      forall i, j | 0 <= i < j < |r|
        ensures r[i].id != r[j].id
      {
        if |h| == 1 && i == 0 {
          assert r[j] == t[j - 1];
        } else {
          assert r[i] == t[i - |h|] && r[j] == t[j - |h|];
        }
      }
    }
  }

  /** The store holds a document with `d`'s id and version, and that version is set. */
  predicate ReadFrom(store: seq<Doc>, d: Doc)
  {
    d.version.Some? && exists j :: 0 <= j < |store| && store[j].id == d.id && store[j].version == d.version
  }

  /**
   * Saving back documents read from a store with distinct ids, each with the
   * id and version it was read with and no id twice: every save is an update
   * that succeeds, the ids stay where they were, and each saved document is
   * stored with its version one higher.
   */
  lemma {:induction false} SaveBack(store: seq<Doc>, ds: seq<Doc>, n: nat)
    requires n <= |ds| && UniqueIds(store) && UniqueIds(ds)
    requires forall k :: 0 <= k < |ds| ==> ReadFrom(store, ds[k])
    ensures SaveUpTo(store, ds, n).ok && SavedBack(store, ds, n, SaveUpTo(store, ds, n).value)
    decreases n
  {
    if n == 0 {
      assert SaveUpTo(store, ds, 0) == Applied(store, true);
      assert SavedBack(store, ds, 0, store);
    } else {
      SaveBack(store, ds, n - 1);
      SaveBackNext(store, ds, n);
    }
  }

  /** The loop goes on from `n - 1` saved documents to `n`. */
  lemma SaveBackNext(store: seq<Doc>, ds: seq<Doc>, n: nat)
    requires 0 < n <= |ds| && UniqueIds(ds) && ReadFrom(store, ds[n - 1])
    requires SaveUpTo(store, ds, n - 1).ok && SavedBack(store, ds, n - 1, SaveUpTo(store, ds, n - 1).value)
    ensures SaveUpTo(store, ds, n).ok && SavedBack(store, ds, n, SaveUpTo(store, ds, n).value)
  {
    var p := SaveUpTo(store, ds, n - 1).value;
    SaveBackStep(store, ds, n - 1, p);
    assert SaveUpTo(store, ds, n) == Applied(Save(p, ds[n - 1]).value, true);
  }

  /**
   * After saving back the first `n` documents: the ids are where they were
   * and still distinct, the documents with other ids are untouched, and each
   * saved document is stored with its advanced version.
   */
  predicate SavedBack(store: seq<Doc>, ds: seq<Doc>, n: nat, r: seq<Doc>)
    requires n <= |ds|
  {
    SameIds(store, r) && UniqueIds(r) && Untouched(store, ds, n, r) && forall k :: 0 <= k < n ==> Saved(ds[k]) in r
  }

  /** Every document of `store` whose id is not among the first `n` of `ds` is where it was in `r`. */
  predicate Untouched(store: seq<Doc>, ds: seq<Doc>, n: nat, r: seq<Doc>)
    requires n <= |ds| && |r| == |store|
  {
    forall j :: 0 <= j < |store| && (forall k :: 0 <= k < n ==> ds[k].id != store[j].id) ==> r[j] == store[j]
  }

  /** One more document saved back: an update in place of its stored copy. */
  lemma SaveBackStep(store: seq<Doc>, ds: seq<Doc>, m: nat, p: seq<Doc>)
    requires m < |ds| && UniqueIds(ds) && ReadFrom(store, ds[m])
    requires SavedBack(store, ds, m, p)
    ensures Save(p, ds[m]).Some? && SavedBack(store, ds, m + 1, Save(p, ds[m]).value)
  {
    var d := ds[m];
    var j :| 0 <= j < |store| && store[j].id == d.id && store[j].version == d.version;
    assert p[j] == store[j] by {
      forall k | 0 <= k < m
        ensures ds[k].id != store[j].id
      {
      }
    }
    SaveUpdates(p, d, j);
    ReplaceKeepsIds(store, p, j, Saved(d));
    var r := p[j := Saved(d)];
    forall k | 0 <= k < m + 1
      ensures Saved(ds[k]) in r
    {
      if k < m {
        var i :| 0 <= i < |p| && p[i] == Saved(ds[k]);
        assert r[i] == p[i];
      } else {
        assert r[j] == Saved(d);
      }
    }
  }

  /** The two stores hold the same ids at the same positions. */
  predicate SameIds(a: seq<Doc>, b: seq<Doc>)
  {
    |a| == |b| && forall j :: 0 <= j < |a| ==> a[j].id == b[j].id
  }

  /** Replacing a document by one with its id keeps the ids, and so their distinctness. */
  lemma ReplaceKeepsIds(store: seq<Doc>, p: seq<Doc>, j: nat, x: Doc)
    requires SameIds(store, p) && UniqueIds(p) && j < |p| && x.id == p[j].id
    ensures SameIds(store, p[j := x]) && UniqueIds(p[j := x])
  {
    var r := p[j := x];
    assert forall i :: 0 <= i < |r| ==> r[i].id == p[i].id;
  }

  /** In a store with distinct ids, an update of the stored version replaces that document. */
  lemma SaveUpdates(store: seq<Doc>, d: Doc, j: nat)
    requires UniqueIds(store) && j < |store| && store[j].id == d.id && store[j].version == d.version && d.version.Some?
    ensures Save(store, d) == Some(store[j := Saved(d)])
  {
    var found := FindIdUpTo(store, d.id, |store|);
    assert found.Some?;
  }
}
