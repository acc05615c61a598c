/**
 * The in-memory configuration of the indicator service: the pool manager
 * (class, map and player-count pools, per-class card pools and their index
 * maps), the older single card-pool manager, the batch counter and the
 * ready-made cache of the served indicator.
 */
module Pools {
  import opened Wrappers
  import opened Sorting
  import opened CardIndex
  import opened MatrixDocs
  import opened MatrixUpdate

  /** The pool request: the pools and maps that `updatePoolPost` reads from it. */
  datatype PoolRequest = PoolRequest(
    timeStamp: string,
    patchVersion: string,
    classPool: seq<int>,
    mapPool: seq<int>,
    playerNumPool: seq<int>,
    cardPoolMap: map<int, seq<int>>,
    allCardPoolMap: map<int, string>,
    upgradeCardPoolMap: map<int, int>)

  /** `classCardPoolMap` and `classCardPoolIndexMap` together. */
  datatype ClassTables = ClassTables(pools: map<int, seq<int>>, index: map<int, map<int, int>>)

  /**
   * The class loop of `updatePoolPost` over the first `n` classes: each class
   * gets its sorted card pool and that pool's index map. A class with no
   * card pool in the request makes `Collections.sort(null)` throw, and the
   * classes before it stay registered.
   */
  function ClassTablesUpTo(classes: seq<int>, cardPoolMap: map<int, seq<int>>, n: nat): Applied<ClassTables>
    requires n <= |classes|
  {
    if n == 0 then Applied(ClassTables(map[], map[]), true)
    else RegisterClass(ClassTablesUpTo(classes, cardPoolMap, n - 1), classes[n - 1], cardPoolMap)
  }

  /** One turn of that loop, on class `c`. */
  function RegisterClass(p: Applied<ClassTables>, c: int, cardPoolMap: map<int, seq<int>>): Applied<ClassTables>
  {
    if !p.ok then p
    else if c !in cardPoolMap then Applied(p.value, false)
    else
      var sorted := SortInts(cardPoolMap[c]);
      Applied(ClassTables(p.value.pools[c := sorted], p.value.index[c := LastIndexMap(sorted)]), true)
  }

  lemma ClassTablesStep(classes: seq<int>, cardPoolMap: map<int, seq<int>>, i: nat)
    requires i < |classes|
    ensures ClassTablesUpTo(classes, cardPoolMap, i + 1) ==
      RegisterClass(ClassTablesUpTo(classes, cardPoolMap, i), classes[i], cardPoolMap)
  {
  }

  lemma {:induction false} ClassTablesStops(classes: seq<int>, cardPoolMap: map<int, seq<int>>, n: nat, m: nat)
    requires n <= m <= |classes|
    requires !ClassTablesUpTo(classes, cardPoolMap, n).ok
    ensures ClassTablesUpTo(classes, cardPoolMap, m) == ClassTablesUpTo(classes, cardPoolMap, n)
    decreases m
  {
    if m > n {
      ClassTablesStops(classes, cardPoolMap, n, m - 1);
    }
  }

  /** The loop succeeds exactly when every class of the pool has a card pool. */
  lemma {:induction false} ClassTablesOk(classes: seq<int>, cardPoolMap: map<int, seq<int>>, n: nat)
    requires n <= |classes|
    ensures ClassTablesUpTo(classes, cardPoolMap, n).ok <==> AllKnown(classes, n, cardPoolMap)
    decreases n
  {
    if n > 0 {
      ClassTablesOk(classes, cardPoolMap, n - 1);
      if !ClassTablesUpTo(classes, cardPoolMap, n - 1).ok {
        ClassTablesStops(classes, cardPoolMap, n - 1, n);
      }
    }
  }

  /**
   * Only classes of the pool are registered, and after a successful loop
   * every class of the pool is; both tables have the same keys.
   */
  lemma {:induction false} ClassTablesKeys(classes: seq<int>, cardPoolMap: map<int, seq<int>>, n: nat)
    requires n <= |classes|
    ensures var r := ClassTablesUpTo(classes, cardPoolMap, n);
      (forall c :: c in r.value.pools ==> c in classes[..n]) &&
      (r.ok ==> forall c :: c in classes[..n] ==> c in r.value.pools) &&
      (forall c :: c in r.value.pools <==> c in r.value.index)
    decreases n
  {
    if n > 0 {
      ClassTablesKeys(classes, cardPoolMap, n - 1);
      assert classes[..n] == classes[..n - 1] + [classes[n - 1]];
      if !ClassTablesUpTo(classes, cardPoolMap, n - 1).ok {
        ClassTablesStops(classes, cardPoolMap, n - 1, n);
      }
    }
  }

  /** Every class in the tables holds its card pool sorted, and the index map of that sorted pool. */
  predicate EntriesOf(t: ClassTables, cardPoolMap: map<int, seq<int>>)
  {
    forall c :: c in t.pools ==>
      c in cardPoolMap && c in t.index && t.pools[c] == SortInts(cardPoolMap[c]) && t.index[c] == LastIndexMap(t.pools[c])
  }

  lemma RegisterEntries(p: Applied<ClassTables>, c: int, cardPoolMap: map<int, seq<int>>)
    requires EntriesOf(p.value, cardPoolMap)
    ensures EntriesOf(RegisterClass(p, c, cardPoolMap).value, cardPoolMap)
  {
  }

  /** Every registered class holds its card pool sorted, and the index map of that sorted pool. */
  lemma {:induction false} ClassTablesEntries(classes: seq<int>, cardPoolMap: map<int, seq<int>>, n: nat)
    requires n <= |classes|
    ensures var r := ClassTablesUpTo(classes, cardPoolMap, n);
      forall c :: c in r.value.pools ==>
        c in cardPoolMap && c in r.value.index &&
        r.value.pools[c] == SortInts(cardPoolMap[c]) && r.value.index[c] == LastIndexMap(r.value.pools[c])
    decreases n
  {
    if n > 0 {
      ClassTablesEntries(classes, cardPoolMap, n - 1);
      RegisterEntries(ClassTablesUpTo(classes, cardPoolMap, n - 1), classes[n - 1], cardPoolMap);
    }
    assert EntriesOf(ClassTablesUpTo(classes, cardPoolMap, n).value, cardPoolMap);
  }

  /** A pool with no card twice keeps that property when it is permuted. */
  lemma {:induction false} DistinctCounts(a: seq<int>)
    requires Distinct(a)
    ensures forall x :: multiset(a)[x] <= 1
    decreases |a|
  {
    if |a| > 0 {
      var init := a[..|a| - 1];
      assert Distinct(init);
      DistinctCounts(init);
      assert a == init + [a[|a| - 1]];
      assert a[|a| - 1] !in init;
    }
  }

  lemma RepeatCounts(b: seq<int>, i: int, j: int)
    requires 0 <= i < j < |b| && b[i] == b[j]
    ensures multiset(b)[b[i]] >= 2
  {
    assert b == b[..i] + [b[i]] + b[i + 1..j] + [b[j]] + b[j + 1..];
  }

  lemma DistinctPermutation(a: seq<int>, b: seq<int>)
    requires multiset(a) == multiset(b) && Distinct(a)
    ensures Distinct(b)
  {
    DistinctCounts(a);
    forall i, j | 0 <= i < j < |b|
      ensures b[i] != b[j]
    {
      if b[i] == b[j] {
        RepeatCounts(b, i, j);
        assert false;
      }
    }
  }

  /**
   * A card pool after `Collections.sort` and the index loop: ascending, the
   * same cards, one key per card mapping to a position holding it; with no
   * card twice, position `i` maps back to `i`.
   */
  lemma SortedPoolIndex(xs: seq<int>)
    ensures var s := SortInts(xs); var m := LastIndexMap(s);
      Ascending(s) && multiset(s) == multiset(xs) &&
      (forall c :: c in m <==> c in xs) &&
      (forall c :: c in m ==> 0 <= m[c] < |s| && s[m[c]] == c) &&
      (Distinct(xs) ==> forall i :: 0 <= i < |s| ==> s[i] in m && m[s[i]] == i)
  {
    var s := SortInts(xs);
    SortIntsAscending(xs);
    LastIndexMapSpec(s);
    forall c
      ensures c in s <==> c in xs
    {
      assert c in s <==> c in multiset(s);
      assert c in xs <==> c in multiset(xs);
    }
    if Distinct(xs) {
      DistinctPermutation(xs, s);
      DistinctIndex(s);
    }
  }

  /**
   * A pool holding the request's entries and the wildcard -1 contains -1,
   * and, being ascending, is the one sorted arrangement of them.
   */
  lemma WildcardPool(xs: seq<int>, s: seq<int>)
    requires Ascending(s) && multiset(s) == multiset(xs) + multiset{-1}
    ensures -1 in s && |s| == |xs| + 1
    ensures s == SortInts(xs + [-1])
  {
    assert -1 in multiset(s);
    assert multiset(s) == multiset(xs + [-1]);
    SortIntsAscending(xs + [-1]);
    AscendingUnique(s, SortInts(xs + [-1]));
  }

  // ------------------------------------------------------------- PoolManager

  /** `Collections.sort` on a pool list. */
  method SortPool(xs: seq<int>) returns (r: seq<int>)
    ensures Ascending(r) && multiset(r) == multiset(xs)
  {
    r := SortInts(xs);
    SortIntsAscending(xs);
  }

  class PoolManager {
    var patchVersion: string
    var classPool: seq<int>
    var mapPool: seq<int>
    var playerNumPool: seq<int>
    var classCardPoolMap: map<int, seq<int>>
    var allCardPoolMap: map<int, string>
    var classCardPoolIndexMap: map<int, map<int, int>>
    var upgradeCardPoolMap: map<int, int>

    constructor()
      ensures patchVersion == "not yet set"
      ensures classPool == [] && mapPool == [] && playerNumPool == []
      ensures classCardPoolMap == map[] && allCardPoolMap == map[]
      ensures classCardPoolIndexMap == map[] && upgradeCardPoolMap == map[]
    {
      patchVersion := "not yet set";
      classPool, mapPool, playerNumPool := [], [], [];
      classCardPoolMap, allCardPoolMap := map[], map[];
      classCardPoolIndexMap, upgradeCardPoolMap := map[], map[];
    }

    /**
     * `updatePoolPost`: every table is rebuilt from the request alone. `ok`
     * is false where a class of the pool has no card pool and the method
     * throws; the classes before it are then the only ones registered.
     */
    method UpdatePoolPost(dto: PoolRequest) returns (ok: bool)
      modifies this
      ensures patchVersion == dto.patchVersion
      ensures Ascending(classPool) && multiset(classPool) == multiset(dto.classPool)
      ensures Ascending(mapPool) && multiset(mapPool) == multiset(dto.mapPool) + multiset{-1}
      ensures Ascending(playerNumPool) && multiset(playerNumPool) == multiset(dto.playerNumPool) + multiset{-1}
      ensures allCardPoolMap == dto.allCardPoolMap && upgradeCardPoolMap == dto.upgradeCardPoolMap
      ensures Applied(ClassTables(classCardPoolMap, classCardPoolIndexMap), ok) ==
        ClassTablesUpTo(classPool, dto.cardPoolMap, |classPool|)
    {
      // The lists and maps are cleared and refilled from the request, the
      // three pools sorted in place, the wildcard -1 added to two of them.
      var cp := SortPool(dto.classPool);
      var mp := SortPool(dto.mapPool + [-1]);
      var pp := SortPool(dto.playerNumPool + [-1]);
      var tables, done := BuildClassTables(cp, dto.cardPoolMap);
      patchVersion, classPool, mapPool, playerNumPool := dto.patchVersion, cp, mp, pp;
      allCardPoolMap, upgradeCardPoolMap := dto.allCardPoolMap, dto.upgradeCardPoolMap;
      classCardPoolMap, classCardPoolIndexMap := tables.pools, tables.index;
      return done;
    }
  }

  /** The class loop of `updatePoolPost`, filling the two tables class by class. */
  method BuildClassTables(classPool: seq<int>, cardPoolMap: map<int, seq<int>>) returns (t: ClassTables, ok: bool)
    ensures Applied(t, ok) == ClassTablesUpTo(classPool, cardPoolMap, |classPool|)
  {
    t := ClassTables(map[], map[]);
    for i := 0 to |classPool|
      invariant Applied(t, true) == ClassTablesUpTo(classPool, cardPoolMap, i)
    {
      t, ok := RegisterOne(classPool, cardPoolMap, i, t);
      if !ok {
        return;
      }
    }
    ok := true;
  }

  /**
   * One turn of the class loop, on class `i`: its pool sorted and indexed,
   * or the throw of a class without a pool, which ends the loop.
   */
  method RegisterOne(classPool: seq<int>, cardPoolMap: map<int, seq<int>>, i: nat, t: ClassTables)
    returns (t': ClassTables, ok: bool)
    requires i < |classPool| && Applied(t, true) == ClassTablesUpTo(classPool, cardPoolMap, i)
    ensures Applied(t', ok) == ClassTablesUpTo(classPool, cardPoolMap, i + 1)
    ensures !ok ==> Applied(t', ok) == ClassTablesUpTo(classPool, cardPoolMap, |classPool|)
  {
    ClassTablesStep(classPool, cardPoolMap, i);
    var classCode := classPool[i];
    if classCode !in cardPoolMap {
      ClassTablesStops(classPool, cardPoolMap, i + 1, |classPool|);
      return t, false;
    }
    var classCardPool := SortInts(cardPoolMap[classCode]);
    var classCardPoolIndex := BuildIndex(classCardPool);
    t' := ClassTables(t.pools[classCode := classCardPool], t.index[classCode := classCardPoolIndex]);
    ok := true;
  }

  // --------------------------------------------------------- CardPoolManager

  /** The older single card pool with its index map. */
  class CardPoolManager {
    var cardPool: seq<int>
    var cardPoolIndex: map<int, int>

    constructor()
      ensures cardPool == [] && cardPoolIndex == map[]
    {
      cardPool, cardPoolIndex := [], map[];
    }

    /** `updateCardPoolPost`: the pool becomes the sorted request, indexed by position. */
    method UpdateCardPoolPost(cardPoolDto: seq<int>)
      modifies this
      ensures cardPool == SortInts(cardPoolDto)
      ensures cardPoolIndex == LastIndexMap(cardPool)
    {
      cardPool, cardPoolIndex := [], map[];
      cardPool := cardPool + cardPoolDto;
      assert cardPool == cardPoolDto;
      cardPool := SortInts(cardPool);
      cardPoolIndex := BuildIndex(cardPool);
    }

    /** `updateCardPoolGet`: the reload from a database is commented out, so both tables end empty. */
    method UpdateCardPoolGet()
      modifies this
      ensures cardPool == [] && cardPoolIndex == map[]
    {
      cardPool, cardPoolIndex := [], map[];
      cardPool := SortInts(cardPool);
      cardPoolIndex := BuildIndex(cardPool);
    }
  }

  // -------------------------------------------------------- BatchCountManager

  class BatchCountManager {
    var batchCount: int

    ghost predicate Valid()
      reads this
    {
      batchCount >= 1
    }

    constructor()
      ensures batchCount == 1 && Valid()
    {
      batchCount := 1;
    }

    method ResetBatchCount()
      modifies this
      ensures batchCount == 1 && Valid()
    {
      batchCount := 1;
    }

    method PlusBatchCount()
      requires Valid()
      modifies this
      ensures batchCount == old(batchCount) + 1 && Valid()
    {
      batchCount := batchCount + 1;
    }

    method IncrementBatchCount()
      requires Valid()
      modifies this
      ensures batchCount == old(batchCount) + 1 && Valid()
    {
      batchCount := batchCount + 1;
    }

    method GetBatchCount() returns (n: int)
      requires Valid()
      ensures n == batchCount && n >= 1
    {
      return batchCount;
    }
  }

  // --------------------------------------------------------- ReadyMadeManager

  /** The cached indicator served to clients between two batch rotations. */
  class ReadyMadeManager {
    var cache: seq<Doc>

    constructor()
      ensures cache == []
    {
      cache := [];
    }

    /**
     * `updateGetIndicator`: the cache is cleared and refilled with the data,
     * in order. With no data (`null`) the cache is left empty and `addAll`
     * throws: `ok` is false.
     */
    method UpdateGetIndicator(data: Option<seq<Doc>>) returns (ok: bool)
      modifies this
      ensures ok <==> data.Some?
      ensures cache == if data.Some? then data.value else []
    {
      cache := [];
      if data.None? {
        return false;
      }
      cache := cache + data.value;
      assert cache == data.value;
      return true;
    }

    method GetGetIndicator() returns (r: seq<Doc>)
      ensures r == cache
    {
      return cache;
    }
  }
}
