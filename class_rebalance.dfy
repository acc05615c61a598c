/**
 * `MasterHintMatrixService.generateRebalanceClass`: per class of the class
 * pool, how often it was picked and how often it won in the live batch, each
 * as a share of all classes, and its win rate when picked.
 *
 * A class's pick (win) count is the sum of the diagonal of its coexistence
 * document's "-1/-1" matrix over the card rows, divided by nine. Every
 * exception of `setPick`, `setWin` and `calculatePick` propagates out of
 * `generateRebalanceClass`: the result is `None`.
 *
 * The members take a flag `boxed`: when it is set, result ids are compared
 * with class codes as the program does, by reference on boxed integers;
 * when it is clear, by value.
 */
module ClassRebalance {
  import opened Wrappers
  import opened Text
  import opened MatrixDocs
  import opened MatrixCoords
  import opened MatrixUpdate
  import opened Ingest
  import opened Rates

  // ------------------------------------------------ calculatePick / calculateWin

  /** `matrix.get(i).get(i)` can be read for every `i < n`. */
  predicate DiagonalFits(m: Matrix, n: nat)
  {
    n <= |m| && forall i :: 0 <= i < n ==> i < |m[i]|
  }

  function Diagonal(m: Matrix, n: nat): int
    requires DiagonalFits(m, n)
  {
    if n == 0 then 0 else Diagonal(m, n - 1) + m[n - 1][n - 1]
  }

  /**
   * The count of one matrix: its first `K` diagonal cells, `K` being the
   * length of row 0, summed and divided by nine; an empty matrix or a short
   * row throws.
   */
  function MatrixCount(m: Matrix): Option<int>
  {
    if |m| == 0 || !DiagonalFits(m, |m[0]|) then None else Some(JavaDiv(Diagonal(m, |m[0]|), 9))
  }

  /** `calculatePick(doc)` / `calculateWin(doc)`: a missing "-1/-1" matrix is a `NullPointerException`. */
  function DocCount(d: Doc): Option<int>
  {
    if AllKey in d.matrixMap then MatrixCount(d.matrixMap[AllKey]) else None
  }

  method CalculateCount(doc: Doc) returns (r: Option<int>)
    ensures r == DocCount(doc)
  {
    if AllKey !in doc.matrixMap {
      return None;
    }
    var matrix := doc.matrixMap[AllKey];
    if |matrix| == 0 {
      return None;
    }
    var colLen := |matrix[0]|;
    var result := 0;
    var i := 0;
    while i < colLen
      invariant 0 <= i <= colLen
      invariant DiagonalFits(matrix, i) && result == Diagonal(matrix, i)
    {
      if i >= |matrix| || i >= |matrix[i]| {
        return None;
      }
      result := result + matrix[i][i];
      i := i + 1;
    }
    return Some(JavaDiv(result, 9));
  }

  lemma {:induction false} DiagonalAgree(a: Matrix, b: Matrix, n: nat)
    requires DiagonalFits(a, n) && DiagonalFits(b, n)
    requires forall i :: 0 <= i < n ==> a[i][i] == b[i][i]
    ensures Diagonal(a, n) == Diagonal(b, n)
    decreases n
  {
    if n > 0 {
      DiagonalAgree(a, b, n - 1);
    }
  }

  /** Row `K`, the "no card yet" row of a `(K+1) x K` matrix, never enters the count. */
  lemma CountSkipsLastRow(m: Matrix, row: seq<int>)
    requires |m| >= 2 && |m| == |m[0]| + 1
    ensures MatrixCount(m[|m| - 1 := row]) == MatrixCount(m)
  {
    var k := |m[0]|;
    var m' := m[|m| - 1 := row];
    assert m'[0] == m[0];
    assert forall i :: 0 <= i < k ==> m'[i] == m[i];
    if DiagonalFits(m, k) {
      DiagonalAgree(m, m', k);
    }
  }

  /**
   * One `updateMatrix` increment moves the diagonal sum by one exactly when
   * it hits a diagonal cell of the counted rows.
   */
  lemma {:induction false} DiagonalBump(m: Matrix, c: Coord, n: nat)
    requires InBounds(m, c) && DiagonalFits(m, n)
    ensures DiagonalFits(Bump(m, c), n)
    ensures Diagonal(Bump(m, c), n) == Diagonal(m, n) + (if c.row == c.col < n then 1 else 0)
    decreases n
  {
    if n > 0 {
      DiagonalBump(m, c, n - 1);
      var b := Bump(m, c);
      assert b[n - 1][n - 1] == m[n - 1][n - 1] + (if c.row == c.col == n - 1 then 1 else 0);
    }
  }

  // ------------------------------------------------------- setPick / setWin

  /**
   * The test `result.getId() != classCode` between two boxed `Integer`s.
   * `boxed` selects the comparison as written, by reference: two boxes of
   * the same value are the same object only inside the cache of
   * `Integer.valueOf`, -128 to 127. Without `boxed`, the intended
   * comparison by value.
   */
  predicate SameId(id: int, code: int, boxed: bool)
  {
    id == code && (boxed ==> -128 <= code <= 127)
  }

  function FigureOf(r: Rebalance, pick: bool): Count
  {
    if pick then r.pick else r.win
  }

  function WithFigure(r: Rebalance, pick: bool, c: Count): Rebalance
  {
    if pick then r.(pick := c) else r.(win := c)
  }

  /** `result.getPick().setUp(v)` (or the win figure) on every result of class `code`. */
  function SetUp(rs: seq<Rebalance>, code: int, v: int, pick: bool, boxed: bool): (r: seq<Rebalance>)
    ensures |r| == |rs|
  {
    seq(|rs|, i requires 0 <= i < |rs| =>
      if SameId(rs[i].id, code, boxed) then WithFigure(rs[i], pick, FigureOf(rs[i], pick).(up := v)) else rs[i])
  }

  datatype Tally = Tally(results: seq<Rebalance>, total: int)

  /** One document of the loop: T documents are skipped; a C document sets its class's figure. */
  function Step(t: Tally, d: Doc, pick: bool, boxed: bool): Option<Tally>
  {
    if d.typ == "T" then Some(t)
    else
      var code := ClassOfDoc(d.id);
      var count := DocCount(d);
      if code.None? || count.None? then None
      else Some(Tally(SetUp(t.results, code.value, count.value, pick, boxed), t.total + count.value))
  }

  /** The document loop over the first `n` documents. */
  function ScanUpTo(rs: seq<Rebalance>, docs: seq<Doc>, n: nat, pick: bool, boxed: bool): Option<Tally>
    requires n <= |docs|
  {
    if n == 0 then Some(Tally(rs, 0))
    else
      var p := ScanUpTo(rs, docs, n - 1, pick, boxed);
      if p.None? then p else Step(p.value, docs[n - 1], pick, boxed)
  }

  /** Every result's denominator becomes the total, and its rate is recomputed. */
  function WithDowns(rs: seq<Rebalance>, total: int, pick: bool): (r: seq<Rebalance>)
    ensures |r| == |rs|
  {
    seq(|rs|, i requires 0 <= i < |rs| =>
      WithFigure(rs[i], pick, FigureOf(rs[i], pick).(down := total, rate := Quotient(FigureOf(rs[i], pick).up, total))))
  }

  /** `setPick(results, pickMatrix)` (`pick`) or `setWin(results, winMatrix)`. */
  function SetCounts(rs: seq<Rebalance>, docs: seq<Doc>, pick: bool, boxed: bool): Option<seq<Rebalance>>
  {
    var t := ScanUpTo(rs, docs, |docs|, pick, boxed);
    if t.None? then None else Some(WithDowns(t.value.results, t.value.total, pick))
  }

  /** One result per class of the pool, in pool order, with zero figures. */
  function Initial(classPool: seq<int>): (r: seq<Rebalance>)
    ensures |r| == |classPool|
  {
    seq(|classPool|, i requires 0 <= i < |classPool| => Rebalance("class", classPool[i], None, Zero, Zero, None))
  }

  /**
   * `generateRebalanceClass()`, reading the documents of the live batch;
   * `boxed` selects the id comparison as written (see `SameId`).
   */
  function RebalanceClass(classPool: seq<int>, pickStore: seq<Doc>, winStore: seq<Doc>, current: string, batch: int,
                          boxed: bool): Option<seq<Rebalance>>
  {
    var p := SetCounts(Initial(classPool), GetDocumentByBatch(pickStore, current, batch), true, boxed);
    if p.None? then None
    else
      var w := SetCounts(p.value, GetDocumentByBatch(winStore, current, batch), false, boxed);
      if w.None? then None else Some(WithWinWhenPick(w.value))
  }

  method AssignUps(rs: seq<Rebalance>, code: int, v: int, pick: bool, boxed: bool) returns (r: seq<Rebalance>)
    ensures r == SetUp(rs, code, v, pick, boxed)
  {
    r := [];
    var i := 0;
    while i < |rs|
      invariant 0 <= i <= |rs| && |r| == i
      invariant forall j :: 0 <= j < i ==> r[j] == SetUp(rs, code, v, pick, boxed)[j]
    {
      var x := rs[i];
      if SameId(x.id, code, boxed) {
        x := WithFigure(x, pick, FigureOf(x, pick).(up := v));
      }
      r := r + [x];
      i := i + 1;
    }
  }

  method AssignDowns(rs: seq<Rebalance>, total: int, pick: bool) returns (r: seq<Rebalance>)
    ensures r == WithDowns(rs, total, pick)
  {
    r := [];
    var i := 0;
    while i < |rs|
      invariant 0 <= i <= |rs| && |r| == i
      invariant forall j :: 0 <= j < i ==> r[j] == WithDowns(rs, total, pick)[j]
    {
      var f := FigureOf(rs[i], pick);
      r := r + [WithFigure(rs[i], pick, f.(down := total, rate := Quotient(f.up, total)))];
      i := i + 1;
    }
  }

  lemma {:induction false} ScanStops(rs: seq<Rebalance>, docs: seq<Doc>, n: nat, m: nat, pick: bool, boxed: bool)
    requires n <= m <= |docs|
    requires ScanUpTo(rs, docs, n, pick, boxed).None?
    ensures ScanUpTo(rs, docs, m, pick, boxed).None?
    decreases m
  {
    if m > n {
      ScanStops(rs, docs, n, m - 1, pick, boxed);
    }
  }

  method ScanDoc(t: Tally, doc: Doc, pick: bool, boxed: bool) returns (r: Option<Tally>)
    ensures r == Step(t, doc, pick, boxed)
  {
    if doc.typ == "T" {
      return Some(t);
    }
    var code := ClassOfDoc(doc.id);
    var count := CalculateCount(doc);
    if code.None? || count.None? {
      return None;
    }
    var results := AssignUps(t.results, code.value, count.value, pick, boxed);
    return Some(Tally(results, t.total + count.value));
  }

  method SetCountsLoop(rs: seq<Rebalance>, docs: seq<Doc>, pick: bool, boxed: bool) returns (r: Option<seq<Rebalance>>)
    ensures r == SetCounts(rs, docs, pick, boxed)
  {
    var t := Tally(rs, 0);
    for i := 0 to |docs|
      invariant ScanUpTo(rs, docs, i, pick, boxed) == Some(t)
    {
      var ok;
      t, ok := ScanOne(rs, docs, pick, boxed, i, t);
      if !ok {
        return None;
      }
    }
    var withDowns := AssignDowns(t.results, t.total, pick);
    return Some(withDowns);
  }

  lemma ScanStep(rs: seq<Rebalance>, docs: seq<Doc>, pick: bool, boxed: bool, i: nat, t: Tally)
    requires i < |docs| && ScanUpTo(rs, docs, i, pick, boxed) == Some(t)
    ensures ScanUpTo(rs, docs, i + 1, pick, boxed) == Step(t, docs[i], pick, boxed)
  {
  }

  /** One turn of the document loop, on document `i`; a throw ends the loop. */
  method ScanOne(rs: seq<Rebalance>, docs: seq<Doc>, pick: bool, boxed: bool, i: nat, t: Tally)
    returns (t': Tally, ok: bool)
    requires i < |docs| && ScanUpTo(rs, docs, i, pick, boxed) == Some(t)
    ensures ok ==> ScanUpTo(rs, docs, i + 1, pick, boxed) == Some(t')
    ensures !ok ==> ScanUpTo(rs, docs, |docs|, pick, boxed).None?
  {
    ScanStep(rs, docs, pick, boxed, i, t);
    var next := ScanDoc(t, docs[i], pick, boxed);
    if next.None? {
      ScanStops(rs, docs, i + 1, |docs|, pick, boxed);
      return t, false;
    }
    return next.value, true;
  }

  method GenerateRebalanceClass(classPool: seq<int>, pickStore: seq<Doc>, winStore: seq<Doc>,
                                current: string, batch: int, boxed: bool) returns (r: Option<seq<Rebalance>>)
    ensures r == RebalanceClass(classPool, pickStore, winStore, current, batch, boxed)
  {
    var results: seq<Rebalance> := [];
    var i := 0;
    while i < |classPool|
      invariant 0 <= i <= |classPool| && results == Initial(classPool[..i])
    {
      results := results + [Rebalance("class", classPool[i], None, Zero, Zero, None)];
      i := i + 1;
    }
    assert classPool[..i] == classPool;
    var pickMatrix := GetDocumentByBatch(pickStore, current, batch);
    var winMatrix := GetDocumentByBatch(winStore, current, batch);
    var picked := SetCountsLoop(results, pickMatrix, true, boxed);
    if picked.None? {
      return None;
    }
    var won := SetCountsLoop(picked.value, winMatrix, false, boxed);
    if won.None? {
      return None;
    }
    var withRates := SetWinWhenPick(won.value);
    return Some(withRates);
  }

  // ------------------------------------------------------------ the figures

  /** A C document of the batch whose class or count cannot be read: it makes the service throw. */
  predicate Unreadable(d: Doc)
  {
    d.typ != "T" && (ClassOfDoc(d.id).None? || DocCount(d).None?)
  }

  /** The count of the last C document of class `code` among the first `n`. */
  function LastCount(docs: seq<Doc>, code: int, n: nat, boxed: bool): Option<int>
    requires n <= |docs|
  {
    if n == 0 then None
    else
      var d := docs[n - 1];
      if d.typ != "T" && !Unreadable(d) && SameId(code, ClassOfDoc(d.id).value, boxed) then DocCount(d)
      else LastCount(docs, code, n - 1, boxed)
  }

  /** The sum of the counts of the C documents among the first `n`. */
  function TotalCount(docs: seq<Doc>, n: nat): int
    requires n <= |docs|
  {
    if n == 0 then 0
    else TotalCount(docs, n - 1) + (if docs[n - 1].typ == "T" then 0 else UpOf(DocCount(docs[n - 1])))
  }

  function UpOf(o: Option<int>): int
  {
    if o.Some? then o.value else 0
  }

  /** The document loop throws exactly when one of the documents is an unreadable C document. */
  lemma {:induction false} ScanFails(rs: seq<Rebalance>, docs: seq<Doc>, n: nat, pick: bool, boxed: bool)
    requires n <= |docs|
    ensures ScanUpTo(rs, docs, n, pick, boxed).None? <==> exists k :: 0 <= k < n && Unreadable(docs[k])
    decreases n
  {
    if n > 0 {
      ScanFails(rs, docs, n - 1, pick, boxed);
      if ScanUpTo(rs, docs, n - 1, pick, boxed).None? {
        var k :| 0 <= k < n - 1 && Unreadable(docs[k]);
        assert 0 <= k < n && Unreadable(docs[k]);
      } else if !Unreadable(docs[n - 1]) {
        forall k | 0 <= k < n
          ensures !Unreadable(docs[k])
        {
          if k < n - 1 {
            assert !(0 <= k < n - 1 && Unreadable(docs[k]));
          }
        }
      }
    }
  }

  /** Without an exception the results keep their number and the total sums every C document's count. */
  lemma {:induction false} ScanTotal(rs: seq<Rebalance>, docs: seq<Doc>, n: nat, pick: bool, boxed: bool)
    requires n <= |docs|
    requires ScanUpTo(rs, docs, n, pick, boxed).Some?
    ensures |ScanUpTo(rs, docs, n, pick, boxed).value.results| == |rs|
    ensures ScanUpTo(rs, docs, n, pick, boxed).value.total == TotalCount(docs, n)
    decreases n
  {
    if n > 0 {
      ScanTotal(rs, docs, n - 1, pick, boxed);
    }
  }

  /**
   * Without an exception, result `i` ends with the count of the last C
   * document of its class, and keeps its figure when there is none.
   */
  lemma {:induction false} ScanResultAt(rs: seq<Rebalance>, docs: seq<Doc>, n: nat, pick: bool, boxed: bool, i: nat)
    requires n <= |docs| && i < |rs|
    requires ScanUpTo(rs, docs, n, pick, boxed).Some?
    ensures i < |ScanUpTo(rs, docs, n, pick, boxed).value.results|
    ensures ScanUpTo(rs, docs, n, pick, boxed).value.results[i] ==
        (var lc := LastCount(docs, rs[i].id, n, boxed);
         if lc.Some? then WithFigure(rs[i], pick, FigureOf(rs[i], pick).(up := lc.value)) else rs[i])
    decreases n
  {
    ScanTotal(rs, docs, n, pick, boxed);
    if n > 0 {
      ScanResultAt(rs, docs, n - 1, pick, boxed, i);
      ScanTotal(rs, docs, n - 1, pick, boxed);
    }
  }



  /**
   * The figure of class `code` over one batch of documents: the count of its
   * last C document (zero without one) over the total of all C documents.
   */
  function ClassFigure(docs: seq<Doc>, code: int, boxed: bool): Count
  {
    var up := UpOf(LastCount(docs, code, |docs|, boxed));
    Count(up, TotalCount(docs, |docs|), Quotient(up, TotalCount(docs, |docs|)))
  }

  /** What the service reports for class `code`: its two figures and wins over picks. */
  function ClassResult(code: int, ds: seq<Doc>, ws: seq<Doc>, boxed: bool): Rebalance
  {
    var p := ClassFigure(ds, code, boxed);
    var w := ClassFigure(ws, code, boxed);
    Rebalance("class", code, None, p, w, Some(Quotient(w.up, p.up)))
  }

  predicate AllReadable(docs: seq<Doc>)
  {
    forall k :: 0 <= k < |docs| ==> !Unreadable(docs[k])
  }

  /** `generateRebalanceClass` fails exactly when an unreadable C document is in the live batch of either collection. */
  lemma RebalanceClassFails(classPool: seq<int>, pickStore: seq<Doc>, winStore: seq<Doc>, current: string, batch: int,
                            boxed: bool)
    ensures RebalanceClass(classPool, pickStore, winStore, current, batch, boxed).Some? <==>
      AllReadable(GetDocumentByBatch(pickStore, current, batch)) && AllReadable(GetDocumentByBatch(winStore, current, batch))
  {
    var ds := GetDocumentByBatch(pickStore, current, batch);
    var ws := GetDocumentByBatch(winStore, current, batch);
    ScanFails(Initial(classPool), ds, |ds|, true, boxed);
    var p := SetCounts(Initial(classPool), ds, true, boxed);
    if p.Some? {
      ScanFails(p.value, ws, |ws|, false, boxed);
    }
  }

  /**
   * Otherwise there is one result per class, in pool order, and the result
   * of class `c` is `ClassResult(c, ...)`: the denominators are shared by
   * every class.
   */
  lemma RebalanceClassAt(classPool: seq<int>, pickStore: seq<Doc>, winStore: seq<Doc>, current: string, batch: int,
                         boxed: bool, i: nat)
    requires RebalanceClass(classPool, pickStore, winStore, current, batch, boxed).Some?
    requires i < |classPool|
    ensures var r := RebalanceClass(classPool, pickStore, winStore, current, batch, boxed).value;
      |r| == |classPool| &&
      r[i] == ClassResult(classPool[i], GetDocumentByBatch(pickStore, current, batch),
                          GetDocumentByBatch(winStore, current, batch), boxed)
  {
    var ds := GetDocumentByBatch(pickStore, current, batch);
    var ws := GetDocumentByBatch(winStore, current, batch);
    var c := classPool[i];
    var r0 := Initial(classPool);
    ScanTotal(r0, ds, |ds|, true, boxed);
    ScanResultAt(r0, ds, |ds|, true, boxed, i);
    var t := ScanUpTo(r0, ds, |ds|, true, boxed).value;
    var p := WithDowns(t.results, t.total, true);
    assert p[i].pick == ClassFigure(ds, c, boxed) && p[i].win == Zero && p[i].id == c;
    ScanTotal(p, ws, |ws|, false, boxed);
    ScanResultAt(p, ws, |ws|, false, boxed, i);
    var t2 := ScanUpTo(p, ws, |ws|, false, boxed).value;
    var w := WithDowns(t2.results, t2.total, false);
    assert w[i].win == ClassFigure(ws, c, boxed) && w[i].pick == ClassFigure(ds, c, boxed);
  }


  /**
   * The comparison as written: a batch whose C document is of class 200 leaves
   * that class's pick count at zero, because 200 lies outside the `Integer`
   * cache; compared by value it is one.
   */
  lemma BoxedIdFinding()
    ensures var d := Doc(DocId("1", 1, "C", IntToString(200)), Some(1), "C", None, map[AllKey := [[9], [0]]], None);
      var rs := Initial([200]);
      var byValue := SetUp(rs, 200, 1, true, false);
      ScanUpTo(rs, [d], 1, true, true) == Some(Tally(rs, 1)) && rs[0].pick.up == 0 &&
      ScanUpTo(rs, [d], 1, true, false) == Some(Tally(byValue, 1)) && byValue[0].pick.up == 1
  {
    var m: Matrix := [[9], [0]];
    var d := Doc(DocId("1", 1, "C", IntToString(200)), Some(1), "C", None, map[AllKey := m], None);
    ClassOfDocId("1", 1, "C", 200);
    assert DiagonalFits(m, 1) && Diagonal(m, 1) == 9;
    assert DocCount(d) == Some(1);
    var rs := Initial([200]);
    var asWritten := SetUp(rs, 200, 1, true, true);
    assert asWritten == rs;
    assert ScanUpTo(rs, [d], 0, true, true) == Some(Tally(rs, 0));
    assert ScanUpTo(rs, [d], 0, true, false) == Some(Tally(rs, 0));
  }


}
