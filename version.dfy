/**
 * Version and batch control of the indicator service: the patch-version
 * state machine of VersionService, its pool gate and batch counter, and the
 * hourly BatchCountScheduler that carries batch N-1 over into batch N.
 *
 * The two Mongo collections (pick and win documents) are the fields of a
 * `MatrixDb`; a query returns copies, so documents are values.
 */
module Version {
  import opened Wrappers
  import opened Text
  import opened MatrixDocs
  import opened MatrixUpdate
  import opened Ingest
  import opened Pools
  import opened Sorting

  /** The request field that gates both update endpoints. */
  const Token: string := "20250320"

  const NotYetSet: string := "not yet set"

  /** The pick (`MatrixDocument`) and win (`WinMatrixDocument`) collections. */
  class MatrixDb {
    var picks: seq<Doc>
    var wins: seq<Doc>

    constructor()
      ensures picks == [] && wins == []
    {
      picks, wins := [], [];
    }
  }

  /** `UpdatePatchVersionRequestDto`, with the fields the service reads. */
  datatype PatchRequest = PatchRequest(
    timeStamp: string,
    newPatchVersion: string,
    oldPatchVersion: Option<string>,
    latestBatchCount: Option<int>)

  /** What `updatePatchVersion` returns: `null`, a thrown exception, or a version. */
  datatype Reply = Rejected | Thrown | Current(version: string)

  /** The three fields of the version service. */
  datatype Control = Control(oldVersion: string, current: string, batch: int)

  /** What document generation reads from the pool manager. */
  datatype PoolView = PoolView(patchVersion: string, classPool: seq<int>, mapPool: seq<int>,
                               playerNumPool: seq<int>, cardPoolMap: map<int, seq<int>>)

  function ViewOf(p: PoolManager): PoolView
    reads p
  {
    PoolView(p.patchVersion, p.classPool, p.mapPool, p.playerNumPool, p.classCardPoolMap)
  }

  datatype Outcome = Outcome(control: Control, picks: seq<Doc>, wins: seq<Doc>, reply: Reply)

  /** The position of the first document whose id is already in `store`, or `|ds|` when there is none. */
  function FirstTaken(store: seq<Doc>, ds: seq<Doc>): (j: nat)
    ensures j <= |ds|
    ensures forall k :: 0 <= k < j ==> FindId(store, ds[k].id).None?
    ensures j < |ds| ==> FindId(store, ds[j].id).Some?
  {
    if ds == [] then 0
    else if FindId(store, ds[0].id).Some? then 0
    else
      var j := FirstTaken(store, ds[1..]);
      assert forall k :: 1 <= k < j + 1 ==> ds[k] == ds[1..][k - 1];
      j + 1
  }

  /**
   * Batch 1 of the new version: the counter is reset and the fresh pick and
   * win skeletons are inserted, picks first. A class without a card pool
   * makes generation throw; a skeleton whose id is already stored makes its
   * insert throw. Either exception is caught: what was inserted before it
   * stays, and nothing after it is saved.
   */
  function Seed(c: Control, picks: seq<Doc>, wins: seq<Doc>, pv: PoolView): Outcome
  {
    var ids := MatrixIds(pv.mapPool, pv.playerNumPool);
    if PoolsKnown(pv.classPool, pv.cardPoolMap, ids) then
      var fp := FreshDocs(c.current, 1, pv.classPool, pv.cardPoolMap, ids, Some(1));
      var p := SaveUpTo(picks, fp, |fp|);
      if !p.ok then Outcome(c.(batch := 1), p.value, wins, Current(c.current))
      else
        var fw := FreshDocs(c.current, 1, pv.classPool, pv.cardPoolMap, ids, None);
        Outcome(c.(batch := 1), p.value, SaveUpTo(wins, fw, |fw|).value, Current(c.current))
    else Outcome(c.(batch := 1), picks, wins, Current(c.current))
  }

  /**
   * `updatePatchVersion(dto)` on the service's fields and the two
   * collections; `asWritten` selects the `haveDocument` test as written.
   */
  function PatchUpdate(c: Control, picks: seq<Doc>, wins: seq<Doc>, dto: PatchRequest, pv: PoolView,
                       asWritten: bool): Outcome
  {
    var v := dto.newPatchVersion;
    if dto.timeStamp != Token then Outcome(c, picks, wins, Rejected)
    else if c.current == v then Outcome(c, picks, wins, Current(c.current))
    else if pv.patchVersion != v then Outcome(c, picks, wins, Thrown)
    else
      var oldVersion := if dto.oldPatchVersion.Some? then dto.oldPatchVersion.value else c.current;
      if dto.latestBatchCount.Some? && HaveDocumentIf(picks, v, asWritten) then
        Outcome(Control(oldVersion, v, dto.latestBatchCount.value), picks, wins, Current(v))
      else Seed(Control(oldVersion, v, c.batch), picks, wins, pv)
  }

  /** The documents have never been stored: their `@Version` is `null`, so each save is an insert. */
  predicate AllNew(ds: seq<Doc>)
  {
    forall k :: 0 <= k < |ds| ==> ds[k].version.None?
  }

  /**
   * Inserting new documents with distinct ids: the loop stores exactly those
   * before the first id already stored, each with `@Version` 0, and
   * completes iff there is none.
   */
  lemma {:induction false} InsertUpToSpec(store: seq<Doc>, ds: seq<Doc>, n: nat)
    requires n <= |ds| && UniqueIds(ds) && AllNew(ds)
    ensures var j := FirstTaken(store, ds);
      SaveUpTo(store, ds, n) ==
        if j < n then Applied(store + SavedAll(ds[..j]), false) else Applied(store + SavedAll(ds[..n]), true)
    ensures forall d :: d in SavedAll(ds) ==> d.version == Some(0)
    decreases n
  {
    SavedNew(ds);
    if n == 0 {
      assert store + SavedAll(ds[..0]) == store;
    } else {
      InsertUpToSpec(store, ds, n - 1);
      var j := FirstTaken(store, ds);
      var p := store + SavedAll(ds[..n - 1]);
      if j == n - 1 {
        InsertTaken(store, ds, n - 1);
        assert Save(p, ds[n - 1]).None?;
      } else if j > n - 1 {
        InsertFresh(store, ds, n - 1);
        assert Save(p, ds[n - 1]) == Some(p + [Saved(ds[n - 1])]);
      }
    }
  }

  /** A new document is inserted with `@Version` 0. */
  lemma SavedNew(ds: seq<Doc>)
    requires AllNew(ds)
    ensures forall d :: d in SavedAll(ds) ==> d.version == Some(0)
  {
  }

  lemma AppendNext(store: seq<Doc>, ds: seq<Doc>, n: nat)
    requires n < |ds|
    ensures store + SavedAll(ds[..n]) + [Saved(ds[n])] == store + SavedAll(ds[..n + 1])
  {
    assert SavedAll(ds[..n + 1]) == SavedAll(ds[..n]) + [Saved(ds[n])];
  }

  /** A document whose id is stored is still found after more documents are appended. */
  lemma InsertTaken(store: seq<Doc>, ds: seq<Doc>, n: nat)
    requires n < |ds| && FindId(store, ds[n].id).Some?
    ensures FindIdUpTo(store + SavedAll(ds[..n]), ds[n].id, |store| + n).Some?
  {
    var i := FindId(store, ds[n].id).value;
    assert (store + SavedAll(ds[..n]))[i] == store[i];
  }

  /** A document whose id is neither stored nor among the earlier distinct ones is not found after them. */
  lemma InsertFresh(store: seq<Doc>, ds: seq<Doc>, n: nat)
    requires n < |ds| && UniqueIds(ds) && FindId(store, ds[n].id).None?
    ensures FindIdUpTo(store + SavedAll(ds[..n]), ds[n].id, |store| + n).None?
    ensures store + SavedAll(ds[..n]) + [Saved(ds[n])] == store + SavedAll(ds[..n + 1])
  {
    AppendNext(store, ds, n);
    var p := store + SavedAll(ds[..n]);
    forall i | 0 <= i < |p|
      ensures p[i].id != ds[n].id
    {
      if i >= |store| {
        assert p[i].id == ds[i - |store|].id;
      }
    }
  }

  /** `updatePool`: `null`, the exception of `updatePoolPost`, or the pools now in force. */
  datatype PoolReply = PoolRejected | PoolThrown |
    PoolEcho(classPool: seq<int>, mapPool: seq<int>, playerNumPool: seq<int>, patchVersion: string)

  class VersionService {
    const pools: PoolManager
    const db: MatrixDb
    var oldPatchVersion: string
    var currentPatchVersion: string
    var batchCount: int

    function State(): Control
      reads this
    {
      Control(oldPatchVersion, currentPatchVersion, batchCount)
    }

    constructor(pools: PoolManager, db: MatrixDb)
      ensures this.pools == pools && this.db == db
      ensures State() == Control(NotYetSet, NotYetSet, 1)
    {
      this.pools, this.db := pools, db;
      oldPatchVersion, currentPatchVersion, batchCount := NotYetSet, NotYetSet, 1;
    }

    method ResetBatchCount()
      modifies this
      ensures State() == old(State()).(batch := 1)
    {
      batchCount := 1;
    }

    method IncrementBatchCount()
      modifies this
      ensures State() == old(State()).(batch := old(batchCount) + 1)
    {
      batchCount := batchCount + 1;
    }

    method UpdatePatchVersion(dto: PatchRequest, asWritten: bool) returns (r: Reply)
      modifies this, db
      ensures Outcome(State(), db.picks, db.wins, r) ==
        PatchUpdate(old(State()), old(db.picks), old(db.wins), dto, ViewOf(pools), asWritten)
    {
      if dto.timeStamp != Token {
        return Rejected;
      }
      var newVersion := dto.newPatchVersion;
      if currentPatchVersion != newVersion {
        if pools.patchVersion != newVersion {
          return Thrown;
        }
        oldPatchVersion := currentPatchVersion;
        currentPatchVersion := newVersion;
        if dto.oldPatchVersion.Some? {
          oldPatchVersion := dto.oldPatchVersion.value;
        }
        if dto.latestBatchCount.Some? {
          batchCount := dto.latestBatchCount.value;
          var have := if asWritten then HaveDocument(db.picks, currentPatchVersion)
                      else HaveVersionDocument(db.picks, currentPatchVersion);
          if have {
            return Current(currentPatchVersion);
          }
        }
        ResetBatchCount();
        var docs := GenerateDocument(currentPatchVersion, batchCount, pools.classPool, pools.mapPool,
                                     pools.playerNumPool, pools.classCardPoolMap);
        if docs.Some? {
          var picks, ok := SaveEach(db.picks, docs.value);
          db.picks := picks;
          if ok {
            var winDocs := GenerateWinDocument(currentPatchVersion, batchCount, pools.classPool, pools.mapPool,
                                               pools.playerNumPool, pools.classCardPoolMap);
            if winDocs.Some? {
              var wins, _ := SaveEach(db.wins, winDocs.value);
              db.wins := wins;
            }
          }
        }
      }
      return Current(currentPatchVersion);
    }

    /**
     * `updatePool`: behind the same gate, rebuilds the pools and echoes them;
     * an exception of `updatePoolPost` propagates.
     */
    method UpdatePool(dto: PoolRequest) returns (r: PoolReply)
      modifies pools
      ensures dto.timeStamp != Token ==> r == PoolRejected && unchanged(pools)
      ensures dto.timeStamp == Token ==>
        pools.patchVersion == dto.patchVersion &&
        Ascending(pools.classPool) && multiset(pools.classPool) == multiset(dto.classPool) &&
        (r != PoolThrown <==> AllKnown(pools.classPool, |pools.classPool|, dto.cardPoolMap)) &&
        (r != PoolThrown ==> r == PoolEcho(pools.classPool, pools.mapPool, pools.playerNumPool, pools.patchVersion))
    {
      if dto.timeStamp != Token {
        return PoolRejected;
      }
      var ok := pools.UpdatePoolPost(dto);
      ClassTablesOk(pools.classPool, dto.cardPoolMap, |pools.classPool|);
      if !ok {
        return PoolThrown;
      }
      return PoolEcho(pools.classPool, pools.mapPool, pools.playerNumPool, pools.patchVersion);
    }
  }

  // ------------------------------------------------------ patch version rules

  /**
   * A wrong token answers `null`, the current version answers itself, and a
   * pool manager on another version throws: none of them changes anything.
   */
  lemma PatchGuards(c: Control, picks: seq<Doc>, wins: seq<Doc>, dto: PatchRequest, pv: PoolView, asWritten: bool)
    ensures dto.timeStamp != Token ==> PatchUpdate(c, picks, wins, dto, pv, asWritten) == Outcome(c, picks, wins, Rejected)
    ensures dto.timeStamp == Token && dto.newPatchVersion == c.current ==>
      PatchUpdate(c, picks, wins, dto, pv, asWritten) == Outcome(c, picks, wins, Current(c.current))
    ensures dto.timeStamp == Token && dto.newPatchVersion != c.current && pv.patchVersion != dto.newPatchVersion ==>
      PatchUpdate(c, picks, wins, dto, pv, asWritten) == Outcome(c, picks, wins, Thrown)
  {
  }

  predicate RealChange(c: Control, dto: PatchRequest, pv: PoolView)
  {
    dto.timeStamp == Token && dto.newPatchVersion != c.current && pv.patchVersion == dto.newPatchVersion
  }

  /**
   * On a real change the new version becomes current and is returned; the
   * old version is the one the request names, else the previous current one.
   * Existing documents of the new version with a supplied batch count are
   * re-attached to; otherwise the batch restarts at 1.
   */
  lemma PatchChange(c: Control, picks: seq<Doc>, wins: seq<Doc>, dto: PatchRequest, pv: PoolView, asWritten: bool)
    requires RealChange(c, dto, pv)
    ensures var o := PatchUpdate(c, picks, wins, dto, pv, asWritten);
      o.reply == Current(dto.newPatchVersion) && o.control.current == dto.newPatchVersion &&
      o.control.oldVersion == (if dto.oldPatchVersion.Some? then dto.oldPatchVersion.value else c.current) &&
      (dto.latestBatchCount.Some? && HaveDocumentIf(picks, dto.newPatchVersion, asWritten) ==>
         o.control.batch == dto.latestBatchCount.value && o.picks == picks && o.wins == wins) &&
      (!(dto.latestBatchCount.Some? && HaveDocumentIf(picks, dto.newPatchVersion, asWritten)) ==> o.control.batch == 1) &&
      picks <= o.picks && wins <= o.wins
  {
    var ids := MatrixIds(pv.mapPool, pv.playerNumPool);
    var fp := FreshDocs(dto.newPatchVersion, 1, pv.classPool, pv.cardPoolMap, ids, Some(1));
    var fw := FreshDocs(dto.newPatchVersion, 1, pv.classPool, pv.cardPoolMap, ids, None);
    FreshDocsNew(dto.newPatchVersion, 1, pv.classPool, pv.cardPoolMap, ids, Some(1));
    FreshDocsNew(dto.newPatchVersion, 1, pv.classPool, pv.cardPoolMap, ids, None);
    InsertUpToKeeps(picks, fp, |fp|);
    InsertUpToKeeps(wins, fw, |fw|);
  }

  /** Inserting new documents only appends. */
  lemma {:induction false} InsertUpToKeeps(store: seq<Doc>, ds: seq<Doc>, n: nat)
    requires n <= |ds| && AllNew(ds)
    ensures store <= SaveUpTo(store, ds, n).value
    decreases n
  {
    if n > 0 {
      InsertUpToKeeps(store, ds, n - 1);
    }
  }

  /**
   * Seeding a new version, when the pool manager knows every class's card
   * pool: the fresh pick skeletons are inserted up to the first one whose id
   * is already stored; only when all of them went in are the win skeletons
   * inserted, again up to the first taken id. Every inserted skeleton
   * carries `@Version` 0. Stored documents never move.
   */
  lemma SeedSaves(c: Control, picks: seq<Doc>, wins: seq<Doc>, dto: PatchRequest, pv: PoolView, asWritten: bool)
    requires RealChange(c, dto, pv)
    requires !(dto.latestBatchCount.Some? && HaveDocumentIf(picks, dto.newPatchVersion, asWritten))
    requires '/' !in dto.newPatchVersion
    requires forall i, j :: 0 <= i < j < |pv.classPool| ==> pv.classPool[i] != pv.classPool[j]
    requires PoolsKnown(pv.classPool, pv.cardPoolMap, MatrixIds(pv.mapPool, pv.playerNumPool))
    ensures var o := PatchUpdate(c, picks, wins, dto, pv, asWritten);
      var ids := MatrixIds(pv.mapPool, pv.playerNumPool);
      var fp := FreshDocs(dto.newPatchVersion, 1, pv.classPool, pv.cardPoolMap, ids, Some(1));
      var fw := FreshDocs(dto.newPatchVersion, 1, pv.classPool, pv.cardPoolMap, ids, None);
      var jp, jw := FirstTaken(picks, fp), FirstTaken(wins, fw);
      o.picks == picks + SavedAll(fp[..jp]) &&
      (jp < |fp| ==> o.wins == wins) &&
      (jp == |fp| ==> o.wins == wins + SavedAll(fw[..jw])) &&
      (jp == |fp| && jw == |fw| ==> o.picks == picks + SavedAll(fp) && o.wins == wins + SavedAll(fw)) &&
      (forall d :: d in SavedAll(fp) ==> d.version == Some(0)) &&
      (forall d :: d in SavedAll(fw) ==> d.version == Some(0))
  {
    var v := dto.newPatchVersion;
    var ids := MatrixIds(pv.mapPool, pv.playerNumPool);
    var fp := FreshDocs(v, 1, pv.classPool, pv.cardPoolMap, ids, Some(1));
    var fw := FreshDocs(v, 1, pv.classPool, pv.cardPoolMap, ids, None);
    FreshDocsUnique(v, 1, pv.classPool, pv.cardPoolMap, ids, Some(1));
    FreshDocsUnique(v, 1, pv.classPool, pv.cardPoolMap, ids, None);
    FreshDocsNew(v, 1, pv.classPool, pv.cardPoolMap, ids, Some(1));
    FreshDocsNew(v, 1, pv.classPool, pv.cardPoolMap, ids, None);
    InsertUpToSpec(picks, fp, |fp|);
    InsertUpToSpec(wins, fw, |fw|);
    assert fp[..|fp|] == fp;
    assert fw[..|fw|] == fw;
  }

  /**
   * When the batch-1 C document of the first class is already stored, its
   * insert throws at once: neither collection changes, while the new version
   * is current and the counter is back at 1.
   */
  lemma SeedStopsOnTakenId(c: Control, picks: seq<Doc>, wins: seq<Doc>, dto: PatchRequest, pv: PoolView,
                           asWritten: bool, j: nat)
    requires RealChange(c, dto, pv)
    requires !(dto.latestBatchCount.Some? && HaveDocumentIf(picks, dto.newPatchVersion, asWritten))
    requires |pv.classPool| > 0 && j < |picks|
    requires picks[j].id == DocId(dto.newPatchVersion, 1, "C", IntToString(pv.classPool[0]))
    ensures var o := PatchUpdate(c, picks, wins, dto, pv, asWritten);
      o.picks == picks && o.wins == wins && o.reply == Current(dto.newPatchVersion) &&
      o.control.current == dto.newPatchVersion && o.control.batch == 1
  {
    var ids := MatrixIds(pv.mapPool, pv.playerNumPool);
    if PoolsKnown(pv.classPool, pv.cardPoolMap, ids) {
      var fp := FreshDocs(dto.newPatchVersion, 1, pv.classPool, pv.cardPoolMap, ids, Some(1));
      FreshDocsAt(dto.newPatchVersion, 1, pv.classPool, pv.cardPoolMap, ids, Some(1), 0);
      assert fp[0].id == picks[j].id;
      assert SaveUpTo(picks, fp, 1) == Applied(picks, false);
      SaveUpToStops(picks, fp, 1, |fp|);
    }
  }

  /**
   * The re-attach test as written would find documents of version "1" in a
   * store holding only version "12" documents and keep the supplied batch
   * count 5 without seeding; the corrected update restarts at batch 1.
   */
  lemma ReattachFinding()
    ensures var d := Doc(DocId("12", 1, "C", "3"), Some(1), "C", None, map[], None);
      var c := Control("0", "0", 3);
      var pv := PoolView("1", [7], [-1], [-1], map[7 := [70]]);
      var dto := PatchRequest(Token, "1", None, Some(5));
      var w := PatchUpdate(c, [d], [], dto, pv, true);
      var o := PatchUpdate(c, [d], [], dto, pv, false);
      HaveDocument([d], "1") && w == Outcome(Control("0", "1", 5), [d], [], Current("1")) &&
      o.control == Control("0", "1", 1) && o.reply == Current("1")
  {
    HaveDocumentFinding();
  }

  // -------------------------------------------------------- batch rotation

  /**
   * The clone of one document for the new batch: the class is the fourth
   * `/`-field of the old id (`None` where Java indexes out of bounds), the
   * optimistic-locking version is cleared, and a pick clone records its batch.
   */
  function CloneDoc(d: Doc, current: string, batch: int, pick: bool): Option<Doc>
  {
    var cls := ClassSegment(d.id);
    if cls.None? then None
    else Some(Doc(DocId(current, batch, d.typ, cls.value), if pick then Some(batch) else d.batchCount,
                  d.typ, d.cardPool, d.matrixMap, None))
  }

  /**
   * The save loop over the first `n` loaded documents; a bad id, or a clone
   * whose id is already stored, throws and ends it.
   */
  function CloneUpTo(store: seq<Doc>, ds: seq<Doc>, current: string, batch: int, pick: bool, n: nat)
    : Applied<seq<Doc>>
    requires n <= |ds|
  {
    if n == 0 then Applied(store, true)
    else
      var p := CloneUpTo(store, ds, current, batch, pick, n - 1);
      var c := CloneDoc(ds[n - 1], current, batch, pick);
      if !p.ok then p
      else if c.None? then Applied(p.value, false)
      else
        var ins := Save(p.value, c.value);
        if ins.None? then Applied(p.value, false) else Applied(ins.value, true)
  }

  lemma {:induction false} CloneUpToStops(store: seq<Doc>, ds: seq<Doc>, current: string, batch: int, pick: bool,
                                          n: nat, m: nat)
    requires n <= m <= |ds|
    requires !CloneUpTo(store, ds, current, batch, pick, n).ok
    ensures CloneUpTo(store, ds, current, batch, pick, m) == CloneUpTo(store, ds, current, batch, pick, n)
    decreases m
  {
    if m > n {
      CloneUpToStops(store, ds, current, batch, pick, n, m - 1);
    }
  }

  /** The scheduler's view: the version service's fields, both collections and the ready-made cache. */
  datatype Rotation = Rotation(control: Control, picks: seq<Doc>, wins: seq<Doc>, cache: seq<Doc>)

  /**
   * One firing of the scheduler: the counter goes up first; the previous
   * batch's pick documents, then its win documents, are cloned into the new
   * batch; then the cache is replaced by `getIndicator()`. An exception
   * anywhere is caught, and what was done before it stays done.
   */
  function Rotate(s: Rotation): Rotation
  {
    var b := s.control.batch + 1;
    var c := s.control.(batch := b);
    var ds := GetDocumentByBatch(s.picks, c.current, b - 1);
    var ws := GetDocumentByBatch(s.wins, c.current, b - 1);
    var p := CloneUpTo(s.picks, ds, c.current, b, true, |ds|);
    if !p.ok then Rotation(c, p.value, s.wins, s.cache)
    else
      var w := CloneUpTo(s.wins, ws, c.current, b, false, |ws|);
      if !w.ok then Rotation(c, p.value, w.value, s.cache)
      else
        var ind := Indicator(p.value, c.current, b);
        Rotation(c, p.value, w.value, if ind.Some? then ind.value else [])
  }

  /** The clone loop of the scheduler, saving into `store`. */
  method SaveClones(store: seq<Doc>, ds: seq<Doc>, current: string, batch: int, pick: bool)
    returns (r: seq<Doc>, ok: bool)
    ensures Applied(r, ok) == CloneUpTo(store, ds, current, batch, pick, |ds|)
  {
    r := store;
    for i := 0 to |ds|
      invariant Applied(r, true) == CloneUpTo(store, ds, current, batch, pick, i)
    {
      var saved;
      r, saved := SaveClone(store, ds, current, batch, pick, i, r);
      if !saved {
        return r, false;
      }
    }
    return r, true;
  }

  /** One turn of the clone loop, on the `i`-th loaded document; a bad id or a taken id ends the loop. */
  method SaveClone(store: seq<Doc>, ds: seq<Doc>, current: string, batch: int, pick: bool, i: nat, r: seq<Doc>)
    returns (r': seq<Doc>, ok: bool)
    requires i < |ds| && CloneUpTo(store, ds, current, batch, pick, i) == Applied(r, true)
    ensures Applied(r', ok) == CloneUpTo(store, ds, current, batch, pick, i + 1)
    ensures !ok ==> Applied(r', ok) == CloneUpTo(store, ds, current, batch, pick, |ds|)
  {
    CloneStep(store, ds, current, batch, pick, i, r);
    var doc := ds[i];
    var docClass := ClassSegment(doc.id);
    if docClass.None? {
      return r, false;
    }
    var id := DocId(current, batch, doc.typ, docClass.value);
    var clone := doc.(id := id, version := None);
    if pick {
      clone := clone.(batchCount := Some(batch));
    }
    var saved := Save(r, clone);
    if saved.None? {
      return r, false;
    }
    r' := saved.value;
    ok := true;
  }

  /** What one more turn of the clone loop does, and that a failed turn is the last. */
  lemma CloneStep(store: seq<Doc>, ds: seq<Doc>, current: string, batch: int, pick: bool, i: nat, r: seq<Doc>)
    requires i < |ds| && CloneUpTo(store, ds, current, batch, pick, i) == Applied(r, true)
    ensures var c := CloneDoc(ds[i], current, batch, pick);
      CloneUpTo(store, ds, current, batch, pick, i + 1) ==
        if c.None? || FindIdUpTo(r, c.value.id, |r|).Some? then Applied(r, false)
        else Applied(r + [c.value.(version := Some(0))], true)
    ensures !CloneUpTo(store, ds, current, batch, pick, i + 1).ok ==>
      CloneUpTo(store, ds, current, batch, pick, |ds|) == CloneUpTo(store, ds, current, batch, pick, i + 1)
  {
    if !CloneUpTo(store, ds, current, batch, pick, i + 1).ok {
      CloneUpToStops(store, ds, current, batch, pick, i + 1, |ds|);
    }
  }

  class BatchCountScheduler {
    const service: VersionService
    const ready: ReadyMadeManager

    constructor(service: VersionService, ready: ReadyMadeManager)
      ensures this.service == service && this.ready == ready
    {
      this.service, this.ready := service, ready;
    }

    /** `incrementBatchCount`, fired every hour. */
    method IncrementBatchCount()
      modifies service, service.db, ready
      ensures Rotation(service.State(), service.db.picks, service.db.wins, ready.cache) ==
        Rotate(old(Rotation(service.State(), service.db.picks, service.db.wins, ready.cache)))
    {
      var db := service.db;
      service.IncrementBatchCount();
      var current, batch := service.currentPatchVersion, service.batchCount;
      var docs := GetDocumentByBatch(db.picks, current, batch - 1);
      var winDocs := GetDocumentByBatch(db.wins, current, batch - 1);
      var picks, ok := SaveClones(db.picks, docs, current, batch, true);
      db.picks := picks;
      if !ok {
        return;
      }
      var wins, winOk := SaveClones(db.wins, winDocs, current, batch, false);
      db.wins := wins;
      if !winOk {
        return;
      }
      var readyMade := GetIndicator(db.picks, current, batch);
      var _ := ready.UpdateGetIndicator(readyMade);
    }
  }

  // -------------------------------------------------------- rotation rules

  /** The counter advances by exactly one whatever happens after, and the versions stay. */
  lemma RotationAdvances(s: Rotation)
    ensures Rotate(s).control == s.control.(batch := s.control.batch + 1)
  {
  }

  /**
   * A clone of a well-formed id `v/b/type/class` is the document under the
   * id `current/batch/type/class`: same type, card pool and cells, no
   * optimistic-locking version, and, for a pick document, the new batch.
   */
  lemma CloneOfDocId(d: Doc, v: string, b: int, cls: string, current: string, batch: int, pick: bool)
    requires d.id == DocId(v, b, d.typ, cls)
    requires '/' !in v && '/' !in d.typ && '/' !in cls && cls != ""
    ensures CloneDoc(d, current, batch, pick) ==
      Some(Doc(DocId(current, batch, d.typ, cls), if pick then Some(batch) else d.batchCount,
               d.typ, d.cardPool, d.matrixMap, None))
  {
    ClassSegmentOfDocId(v, b, d.typ, cls);
  }

  /**
   * The clone loop only appends: the stored documents keep their positions,
   * and everything added is the clone of a loaded document, inserted with
   * `@Version` 0.
   */
  lemma {:induction false} CloneUpToKeeps(store: seq<Doc>, ds: seq<Doc>, current: string, batch: int, pick: bool,
                                          n: nat)
    requires n <= |ds|
    ensures var r := CloneUpTo(store, ds, current, batch, pick, n).value;
      store <= r &&
      forall i :: |store| <= i < |r| ==>
        r[i].version == Some(0) &&
        exists k :: 0 <= k < n && CloneDoc(ds[k], current, batch, pick) == Some(r[i].(version := None))
    decreases n
  {
    if n > 0 {
      CloneUpToKeeps(store, ds, current, batch, pick, n - 1);
      var p := CloneUpTo(store, ds, current, batch, pick, n - 1).value;
      var r := CloneUpTo(store, ds, current, batch, pick, n).value;
      if r != p {
        var c := CloneDoc(ds[n - 1], current, batch, pick);
        assert r == p + [Saved(c.value)];
        forall i | |store| <= i < |r|
          ensures r[i].version == Some(0)
          ensures exists k :: 0 <= k < n && CloneDoc(ds[k], current, batch, pick) == Some(r[i].(version := None))
        {
          if i == |p| {
            assert CloneDoc(ds[n - 1], current, batch, pick) == Some(r[i].(version := None));
          } else {
            var k :| 0 <= k < n - 1 && CloneDoc(ds[k], current, batch, pick) == Some(p[i].(version := None));
            assert r[i] == p[i];
          }
        }
      }
    }
  }

  /**
   * Rotating never moves or alters a stored document, in particular none of
   * the batch it copies from: both collections only grow at the end.
   */
  lemma RotationOnlyAppends(s: Rotation)
    ensures s.picks <= Rotate(s).picks && s.wins <= Rotate(s).wins
  {
    var cur, b := s.control.current, s.control.batch;
    var ds := GetDocumentByBatch(s.picks, cur, b);
    var ws := GetDocumentByBatch(s.wins, cur, b);
    CloneUpToKeeps(s.picks, ds, cur, b + 1, true, |ds|);
    CloneUpToKeeps(s.wins, ws, cur, b + 1, false, |ws|);
  }

  /**
   * When the first loaded pick document's clone id is already stored, its
   * insert throws: nothing is saved in either collection and the ready-made
   * cache keeps its old contents, while the counter has already moved on.
   */
  lemma RotationStopsOnTakenId(s: Rotation, j: nat)
    requires var ds := GetDocumentByBatch(s.picks, s.control.current, s.control.batch);
      |ds| > 0 && j < |s.picks| &&
      CloneDoc(ds[0], s.control.current, s.control.batch + 1, true).Some? &&
      s.picks[j].id == CloneDoc(ds[0], s.control.current, s.control.batch + 1, true).value.id
    ensures Rotate(s) == Rotation(s.control.(batch := s.control.batch + 1), s.picks, s.wins, s.cache)
  {
    var cur, b := s.control.current, s.control.batch;
    var ds := GetDocumentByBatch(s.picks, cur, b);
    var c := CloneDoc(ds[0], cur, b + 1, true).value;
    assert CloneUpTo(s.picks, ds, cur, b + 1, true, 1) == Applied(s.picks, false);
    CloneUpToStops(s.picks, ds, cur, b + 1, true, 1, |ds|);
  }

  /** With an empty previous batch nothing is saved, and the cache is emptied. */
  lemma EmptyBatchNoSaves(s: Rotation)
    requires |GetDocumentByBatch(s.picks, s.control.current, s.control.batch)| == 0
    requires |GetDocumentByBatch(s.wins, s.control.current, s.control.batch)| == 0
    ensures Rotate(s).picks == s.picks && Rotate(s).wins == s.wins && Rotate(s).cache == []
  {
  }
}
