/**
 * The in-place matrix updates of the indicator service
 * (GamerHintMatrixSubService.updateMatrix / updateWinMatrix and
 * weightUpdateMatrix).
 *
 * Java changes the nested `List<List<Integer>>` cells of a loaded document
 * one at a time, and an exception (a `null` matrix, an index out of bounds,
 * an unboxed `null`) leaves every cell changed so far changed. Each operation
 * is therefore specified by a function that returns the state Java leaves and
 * whether it finished (`Applied`), built element by element in the loops'
 * order; the lemmas then say what that state is.
 */
module MatrixUpdate {
  import opened Wrappers
  import opened Text
  import opened MatrixDocs
  import opened MatrixCoords

  /** `matrix.get(c.row).get(c.col)` does not throw. */
  predicate InBounds(m: Matrix, c: Coord)
  {
    0 <= c.row < |m| && 0 <= c.col < |m[c.row]|
  }

  predicate SameShape(a: Matrix, b: Matrix)
  {
    |a| == |b| && forall i :: 0 <= i < |a| ==> |a[i]| == |b[i]|
  }

  /** Every coordinate of the list lies inside the matrix. */
  predicate AllInBounds(m: Matrix, xy: seq<Coord>)
  {
    forall t :: 0 <= t < |xy| ==> InBounds(m, xy[t])
  }

  function Bump(m: Matrix, c: Coord): (r: Matrix)
    requires InBounds(m, c)
    ensures SameShape(r, m)
  {
    m[c.row := m[c.row][c.col := m[c.row][c.col] + 1]]
  }

  // ------------------------------------------------------------ updateMatrix

  /** The inner `xy` loop on one matrix: each coordinate's cell gains one, until one is out of range. */
  function BumpAll(m: Matrix, xy: seq<Coord>): (r: Applied<Matrix>)
    ensures SameShape(r.value, m)
    decreases |xy|
  {
    if |xy| == 0 then Applied(m, true)
    else
      var p := BumpAll(m, xy[..|xy| - 1]);
      var c := xy[|xy| - 1];
      if !p.ok then p
      else if InBounds(p.value, c) then Applied(Bump(p.value, c), true)
      else Applied(p.value, false)
  }

  /** The `id` loop: matrix after matrix; a missing key is a `null` matrix, fatal once `xy` is non-empty. */
  function UpdateAll(mm: map<MatrixKey, Matrix>, ids: seq<MatrixKey>, xy: seq<Coord>): (r: Applied<map<MatrixKey, Matrix>>)
    ensures r.value.Keys == mm.Keys
    decreases |ids|
  {
    if |ids| == 0 then Applied(mm, true)
    else
      var p := UpdateAll(mm, ids[..|ids| - 1], xy);
      var id := ids[|ids| - 1];
      if !p.ok then p
      else if id !in p.value then Applied(p.value, |xy| == 0)
      else
        var b := BumpAll(p.value[id], xy);
        Applied(p.value[id := b.value], b.ok)
  }

  method BumpLoop(m: Matrix, xy: seq<Coord>) returns (r: Matrix, ok: bool)
    ensures Applied(r, ok) == BumpAll(m, xy)
  {
    r := m;
    var t := 0;
    while t < |xy|
      invariant 0 <= t <= |xy|
      invariant Applied(r, true) == BumpAll(m, xy[..t])
    {
      assert xy[..t + 1][..t] == xy[..t];
      var c := xy[t];
      if !(0 <= c.row < |r| && 0 <= c.col < |r[c.row]|) {
        ok := false;
        BumpAllStops(m, xy, t + 1);
        return;
      }
      r := r[c.row := r[c.row][c.col := r[c.row][c.col] + 1]];
      t := t + 1;
    }
    assert xy[..t] == xy;
    ok := true;
  }

  /** `updateMatrix(doc, targetMatrixIdList, xyList)` and `updateWinMatrix`, which is the same code. */
  method UpdateMatrix(doc: Doc, ids: seq<MatrixKey>, xy: seq<Coord>) returns (d: Doc, ok: bool)
    ensures d == doc.(matrixMap := UpdateAll(doc.matrixMap, ids, xy).value)
    ensures ok == UpdateAll(doc.matrixMap, ids, xy).ok
  {
    var mm := doc.matrixMap;
    var n := 0;
    while n < |ids|
      invariant 0 <= n <= |ids|
      invariant Applied(mm, true) == UpdateAll(doc.matrixMap, ids[..n], xy)
    {
      assert ids[..n + 1][..n] == ids[..n];
      var id := ids[n];
      if id !in mm {
        if |xy| > 0 {
          d, ok := doc.(matrixMap := mm), false;
          UpdateAllStops(doc.matrixMap, ids, xy, n + 1);
          return;
        }
      } else {
        var m', fine := BumpLoop(mm[id], xy);
        mm := mm[id := m'];
        if !fine {
          d, ok := doc.(matrixMap := mm), false;
          UpdateAllStops(doc.matrixMap, ids, xy, n + 1);
          return;
        }
      }
      n := n + 1;
    }
    assert ids[..n] == ids;
    d, ok := doc.(matrixMap := mm), true;
  }

  /** Once the inner loop has stopped, later coordinates change nothing. */
  lemma {:induction false} BumpAllStops(m: Matrix, xy: seq<Coord>, n: nat)
    requires n <= |xy| && !BumpAll(m, xy[..n]).ok
    ensures BumpAll(m, xy) == BumpAll(m, xy[..n])
    decreases |xy|
  {
    if n < |xy| {
      assert xy[..|xy| - 1][..n] == xy[..n];
      BumpAllStops(m, xy[..|xy| - 1], n);
    } else {
      assert xy[..n] == xy;
    }
  }

  lemma {:induction false} UpdateAllStops(mm: map<MatrixKey, Matrix>, ids: seq<MatrixKey>, xy: seq<Coord>, n: nat)
    requires n <= |ids| && !UpdateAll(mm, ids[..n], xy).ok
    ensures UpdateAll(mm, ids, xy) == UpdateAll(mm, ids[..n], xy)
    decreases |ids|
  {
    if n < |ids| {
      assert ids[..|ids| - 1][..n] == ids[..n];
      UpdateAllStops(mm, ids[..|ids| - 1], xy, n);
    } else {
      assert ids[..n] == ids;
    }
  }

  /** The inner loop completes exactly when every coordinate is inside the matrix. */
  lemma {:induction false} BumpAllOk(m: Matrix, xy: seq<Coord>)
    ensures BumpAll(m, xy).ok <==> AllInBounds(m, xy)
    decreases |xy|
  {
    if |xy| > 0 {
      var init := xy[..|xy| - 1];
      BumpAllOk(m, init);
      var p := BumpAll(m, init);
      var c := xy[|xy| - 1];
      assert InBounds(p.value, c) <==> InBounds(m, c);
      if AllInBounds(m, xy) {
        assert forall t :: 0 <= t < |init| ==> init[t] == xy[t];
      }
      if AllInBounds(m, init) && InBounds(m, c) {
        assert forall t :: 0 <= t < |xy| ==> t < |init| ==> xy[t] == init[t];
      }
    }
  }

  /** A completed inner loop adds to each cell the number of times its coordinate occurs. */
  lemma {:induction false} BumpAllCell(m: Matrix, xy: seq<Coord>, i: nat, j: nat)
    requires BumpAll(m, xy).ok
    requires i < |m| && j < |m[i]|
    ensures BumpAll(m, xy).value[i][j] == m[i][j] + Count(xy, Coord(i, j))
    decreases |xy|
  {
    if |xy| > 0 {
      var init := xy[..|xy| - 1];
      BumpAllCell(m, init, i, j);
    }
  }

  /** Keys the target list does not name keep their matrix, whether or not the update finished. */
  lemma {:induction false} UpdateAllUntouched(mm: map<MatrixKey, Matrix>, ids: seq<MatrixKey>, xy: seq<Coord>, k: MatrixKey)
    requires k in mm && k !in ids
    ensures UpdateAll(mm, ids, xy).value[k] == mm[k]
    decreases |ids|
  {
    if |ids| > 0 {
      var init := ids[..|ids| - 1];
      assert k !in init;
      UpdateAllUntouched(mm, init, xy, k);
    }
  }

  /** Every matrix keeps its shape, whether or not the update finished. */
  lemma {:induction false} UpdateAllShape(mm: map<MatrixKey, Matrix>, ids: seq<MatrixKey>, xy: seq<Coord>, k: MatrixKey)
    requires k in mm
    ensures SameShape(UpdateAll(mm, ids, xy).value[k], mm[k])
    decreases |ids|
  {
    if |ids| > 0 {
      UpdateAllShape(mm, ids[..|ids| - 1], xy, k);
    }
  }

  /** Every target key names a matrix that holds every coordinate. */
  predicate TargetsFit(mm: map<MatrixKey, Matrix>, ids: seq<MatrixKey>, xy: seq<Coord>)
  {
    forall t :: 0 <= t < |ids| ==> ids[t] in mm && AllInBounds(mm[ids[t]], xy)
  }

  /**
   * The update completes exactly when the coordinate list is empty, or every
   * target key is present and every coordinate lies inside its matrix.
   */
  lemma {:induction false} UpdateAllOk(mm: map<MatrixKey, Matrix>, ids: seq<MatrixKey>, xy: seq<Coord>)
    ensures UpdateAll(mm, ids, xy).ok <==> (|xy| == 0 || TargetsFit(mm, ids, xy))
    decreases |ids|
  {
    if |ids| > 0 {
      var init := ids[..|ids| - 1];
      var id := ids[|ids| - 1];
      UpdateAllOk(mm, init, xy);
      var p := UpdateAll(mm, init, xy);
      assert forall t :: 0 <= t < |init| ==> init[t] == ids[t];
      if p.ok && id in mm {
        UpdateAllShape(mm, init, xy, id);
        BumpAllOk(p.value[id], xy);
        BumpAllOk(mm[id], xy);
        assert AllInBounds(p.value[id], xy) <==> AllInBounds(mm[id], xy);
      }
    }
  }

  /**
   * A completed update adds to cell (i, j) of matrix `k` the number of times
   * `k` is targeted times the number of times (i, j) is listed.
   */
  lemma {:induction false} UpdateAllCell(mm: map<MatrixKey, Matrix>, ids: seq<MatrixKey>, xy: seq<Coord>,
                                         k: MatrixKey, i: nat, j: nat)
    requires UpdateAll(mm, ids, xy).ok
    requires k in mm && i < |mm[k]| && j < |mm[k][i]|
    ensures var q := UpdateAll(mm, ids, xy).value[k];
      i < |q| && j < |q[i]| && q[i][j] == mm[k][i][j] + Count(ids, k) * Count(xy, Coord(i, j))
    decreases |ids|
  {
    if |ids| > 0 {
      var init := ids[..|ids| - 1];
      var id := ids[|ids| - 1];
      var p := UpdateAll(mm, init, xy);
      assert p.ok;
      UpdateAllCell(mm, init, xy, k, i, j);
      UpdateAllShape(mm, init, xy, k);
      var c, n := Count(xy, Coord(i, j)), Count(init, k);
      var q := UpdateAll(mm, ids, xy).value[k];
      if id == k {
        assert q == BumpAll(p.value[k], xy).value;
        BumpAllCell(p.value[k], xy, i, j);
        assert Count(ids, k) == n + 1;
        MatrixCoords.MulStep(n + 1, c);
      } else {
        assert q == p.value[k];
        assert Count(ids, k) == n;
      }
    }
  }

  // ------------------------------------------------------ weightUpdateMatrix

  /** One entry of the upgrade map: `reinforce` (the key) is reinforced from `upgrade` (the value). */
  datatype Upgrade = Upgrade(reinforce: int, upgrade: int)

  /** Java's `x * 3 / 10`: the division truncates toward zero. */
  function ThreeTenths(x: int): int
  {
    if x >= 0 then x * 3 / 10 else -((-x * 3) / 10)
  }

  /** Row `row` of the column pass can be read: `matrix.get(row).get(u)` and `.get(r)`. */
  predicate RowFits(m: Matrix, u: int, r: int, row: nat)
  {
    row < |m| && 0 <= u < |m[row]| && 0 <= r < |m[row]|
  }

  /**
   * The row loop for one upgrade pair, over rows `0 .. n-1`: every row but `u`
   * and `r` gains 3/10 of its column-`u` cell in column `r`.
   */
  function WeightRows(m: Matrix, u: int, r: int, n: nat): (a: Applied<Matrix>)
    ensures SameShape(a.value, m)
    decreases n
  {
    if n == 0 then Applied(m, true)
    else
      var p := WeightRows(m, u, r, n - 1);
      var row := n - 1;
      if !p.ok || row == u || row == r then p
      else if RowFits(p.value, u, r, row) then
        Applied(p.value[row := p.value[row][r := ThreeTenths(p.value[row][u]) + p.value[row][r]]], true)
      else Applied(p.value, false)
  }

  /**
   * One upgrade entry on one matrix. A reinforce card outside the class is
   * skipped; otherwise the row bound is `matrix.get(0).size()` (an empty
   * matrix throws), and the first row comparison unboxes the upgrade card's
   * index (`null` throws when the class lacks the upgrade card).
   */
  function WeightEntry(m: Matrix, idx: map<int, int>, e: Upgrade): (a: Applied<Matrix>)
    ensures SameShape(a.value, m)
  {
    if e.reinforce !in idx then Applied(m, true)
    else if |m| == 0 then Applied(m, false)
    else if |m[0]| == 0 then Applied(m, true)
    else if e.upgrade !in idx then Applied(m, false)
    else WeightRows(m, idx[e.upgrade], idx[e.reinforce], |m[0]|)
  }

  /** The entry loop on one matrix, in the map's iteration order. */
  function WeightEntries(m: Matrix, idx: map<int, int>, ups: seq<Upgrade>): (a: Applied<Matrix>)
    ensures SameShape(a.value, m)
    decreases |ups|
  {
    if |ups| == 0 then Applied(m, true)
    else
      var p := WeightEntries(m, idx, ups[..|ups| - 1]);
      if !p.ok then p
      else
        var e := WeightEntry(p.value, idx, ups[|ups| - 1]);
        assert SameShape(e.value, m) by {
          assert forall i :: 0 <= i < |m| ==> |e.value[i]| == |p.value[i]|;
        }
        e
  }

  /** Some entry's reinforce card belongs to the class. */
  predicate ReinforceKnown(idx: map<int, int>, ups: seq<Upgrade>)
  {
    exists t :: 0 <= t < |ups| && ups[t].reinforce in idx
  }

  /**
   * The target loop. Without an index map for the class, `containsKey` throws
   * at the first entry; a missing matrix throws at `matrix.get(0)` once an
   * entry passes the class test.
   */
  function WeightAll(mm: map<MatrixKey, Matrix>, idx: Option<map<int, int>>, ups: seq<Upgrade>,
                     ids: seq<MatrixKey>): (r: Applied<map<MatrixKey, Matrix>>)
    ensures r.value.Keys == mm.Keys
    decreases |ids|
  {
    if |ids| == 0 then Applied(mm, true)
    else
      var p := WeightAll(mm, idx, ups, ids[..|ids| - 1]);
      var id := ids[|ids| - 1];
      if !p.ok then p
      else if idx.None? then Applied(p.value, |ups| == 0)
      else if id !in p.value then Applied(p.value, !ReinforceKnown(idx.value, ups))
      else
        var a := WeightEntries(p.value[id], idx.value, ups);
        Applied(p.value[id := a.value], a.ok)
  }

  /** `Integer.parseInt(doc.getId().split("/")[3])`, `None` where Java throws. */
  function ClassOfDoc(id: string): Option<int>
  {
    var s := ClassSegment(id);
    if s.None? then None else ParseInt(s.value)
  }

  /** `weightUpdateMatrix(doc, targetMatrixIdList)`: a bad class segment throws before any change. */
  function WeightUpdate(doc: Doc, ids: seq<MatrixKey>, ups: seq<Upgrade>,
                        classIndex: map<int, map<int, int>>): Applied<Doc>
  {
    var code := ClassOfDoc(doc.id);
    if code.None? then Applied(doc, false)
    else
      var idx := if code.value in classIndex then Some(classIndex[code.value]) else None;
      var w := WeightAll(doc.matrixMap, idx, ups, ids);
      Applied(doc.(matrixMap := w.value), w.ok)
  }

  /**
   * The row loop for one pair completes exactly when every visited row can
   * be read; then column `r` of rows below `n` other than `u` and `r` gains
   * 3/10 of column `u`, and every other cell is unchanged.
   */
  lemma {:induction false} WeightRowsSpec(m: Matrix, u: int, r: int, n: nat)
    ensures WeightRows(m, u, r, n).ok <==>
      forall row :: 0 <= row < n && row != u && row != r ==> RowFits(m, u, r, row)
    ensures WeightRows(m, u, r, n).ok ==>
      forall i, j :: 0 <= i < |m| && 0 <= j < |m[i]| ==>
        WeightRows(m, u, r, n).value[i][j]
          == if i < n && i != u && i != r && j == r && 0 <= u < |m[i]| then ThreeTenths(m[i][u]) + m[i][r]
             else m[i][j]
    decreases n
  {
    if n > 0 {
      WeightRowsSpec(m, u, r, n - 1);
      var p := WeightRows(m, u, r, n - 1);
      var row := n - 1;
      if p.ok && row != u && row != r {
        assert RowFits(p.value, u, r, row) <==> RowFits(m, u, r, row);
        if RowFits(m, u, r, row) {
          assert p.value[row] == m[row];
        }
      }
    }
  }

  /**
   * One upgrade entry changes only column `reinforce`, only in rows below the
   * column count other than the two cards' rows, so the start row K of a
   * (K+1) x K matrix is never touched; an entry whose reinforce card is
   * outside the class changes nothing.
   */
  lemma WeightEntryColumn(m: Matrix, idx: map<int, int>, e: Upgrade, i: nat, j: nat)
    requires WeightEntry(m, idx, e).ok
    requires i < |m| && j < |m[i]|
    ensures WeightEntry(m, idx, e).value[i][j]
      == if e.reinforce in idx && e.upgrade in idx && i < |m[0]| && i != idx[e.upgrade] && i != idx[e.reinforce]
            && j == idx[e.reinforce] && 0 <= idx[e.upgrade] < |m[i]|
         then ThreeTenths(m[i][idx[e.upgrade]]) + m[i][j]
         else m[i][j]
  {
    if e.reinforce in idx && |m[0]| > 0 {
      WeightRowsSpec(m, idx[e.upgrade], idx[e.reinforce], |m[0]|);
    }
  }

  /** Every matrix keeps its shape, and the keys not targeted keep their matrix. */
  lemma {:induction false} WeightAllFrame(mm: map<MatrixKey, Matrix>, idx: Option<map<int, int>>, ups: seq<Upgrade>,
                                          ids: seq<MatrixKey>, k: MatrixKey)
    requires k in mm
    ensures SameShape(WeightAll(mm, idx, ups, ids).value[k], mm[k])
    ensures k !in ids ==> WeightAll(mm, idx, ups, ids).value[k] == mm[k]
    decreases |ids|
  {
    if |ids| > 0 {
      var init := ids[..|ids| - 1];
      WeightAllFrame(mm, idx, ups, init, k);
      if k !in ids {
        assert k !in init;
      }
    }
  }

  lemma {:induction false} WeightRowsStops(m: Matrix, u: int, r: int, k: nat, n: nat)
    requires k <= n && !WeightRows(m, u, r, k).ok
    ensures WeightRows(m, u, r, n) == WeightRows(m, u, r, k)
    decreases n
  {
    if k < n {
      WeightRowsStops(m, u, r, k, n - 1);
    }
  }

  lemma {:induction false} WeightEntriesStops(m: Matrix, idx: map<int, int>, ups: seq<Upgrade>, n: nat)
    requires n <= |ups| && !WeightEntries(m, idx, ups[..n]).ok
    ensures WeightEntries(m, idx, ups) == WeightEntries(m, idx, ups[..n])
    decreases |ups|
  {
    if n < |ups| {
      assert ups[..|ups| - 1][..n] == ups[..n];
      WeightEntriesStops(m, idx, ups[..|ups| - 1], n);
    } else {
      assert ups[..n] == ups;
    }
  }

  lemma {:induction false} WeightAllStops(mm: map<MatrixKey, Matrix>, idx: Option<map<int, int>>, ups: seq<Upgrade>,
                                          ids: seq<MatrixKey>, n: nat)
    requires n <= |ids| && !WeightAll(mm, idx, ups, ids[..n]).ok
    ensures WeightAll(mm, idx, ups, ids) == WeightAll(mm, idx, ups, ids[..n])
    decreases |ids|
  {
    if n < |ids| {
      assert ids[..|ids| - 1][..n] == ids[..n];
      WeightAllStops(mm, idx, ups, ids[..|ids| - 1], n);
    } else {
      assert ids[..n] == ids;
    }
  }

  /** The row loop `for (row = 0; row < matrix.get(0).size(); row++)` for one pair. */
  method WeightRowsLoop(m: Matrix, u: int, r: int, w: nat) returns (res: Matrix, ok: bool)
    ensures Applied(res, ok) == WeightRows(m, u, r, w)
  {
    res := m;
    var row := 0;
    while row < w
      invariant 0 <= row <= w
      invariant Applied(res, true) == WeightRows(m, u, r, row)
    {
      if row != u && row != r {
        if !(row < |res| && 0 <= u < |res[row]| && 0 <= r < |res[row]|) {
          WeightRowsStops(m, u, r, row + 1, w);
          return res, false;
        }
        var parent := ThreeTenths(res[row][u]);
        var child := res[row][r];
        res := res[row := res[row][r := parent + child]];
      }
      row := row + 1;
    }
    ok := true;
  }

  /** The entry loop on one present matrix. */
  method WeightEntriesLoop(m: Matrix, idx: map<int, int>, ups: seq<Upgrade>) returns (res: Matrix, ok: bool)
    ensures Applied(res, ok) == WeightEntries(m, idx, ups)
  {
    res := m;
    var t := 0;
    while t < |ups|
      invariant 0 <= t <= |ups|
      invariant Applied(res, true) == WeightEntries(m, idx, ups[..t])
    {
      assert ups[..t + 1][..t] == ups[..t];
      var e := ups[t];
      if e.reinforce in idx {
        if |res| == 0 || (|res[0]| > 0 && e.upgrade !in idx) {
          WeightEntriesStops(m, idx, ups, t + 1);
          return res, false;
        }
        if |res[0]| > 0 {
          var next, fine := WeightRowsLoop(res, idx[e.upgrade], idx[e.reinforce], |res[0]|);
          res := next;
          if !fine {
            WeightEntriesStops(m, idx, ups, t + 1);
            return res, false;
          }
        }
      }
      t := t + 1;
    }
    assert ups[..t] == ups;
    ok := true;
  }

  /** The entry loop on a missing (`null`) matrix: it throws at the first entry of the class. */
  method FindKnownReinforce(idx: map<int, int>, ups: seq<Upgrade>) returns (found: bool)
    ensures found == ReinforceKnown(idx, ups)
  {
    var t := 0;
    while t < |ups|
      invariant 0 <= t <= |ups|
      invariant forall s :: 0 <= s < t ==> ups[s].reinforce !in idx
    {
      if ups[t].reinforce in idx {
        return true;
      }
      t := t + 1;
    }
    return false;
  }

  /**
   * `weightUpdateMatrix(doc, targetMatrixIdList)`, with the upgrade map's
   * entries in iteration order and the class index maps as parameters.
   */
  method WeightUpdateMatrix(doc: Doc, ids: seq<MatrixKey>, ups: seq<Upgrade>,
                            classIndex: map<int, map<int, int>>) returns (d: Doc, ok: bool)
    ensures Applied(d, ok) == WeightUpdate(doc, ids, ups, classIndex)
  {
    var code := ClassOfDoc(doc.id);
    if code.None? {
      return doc, false;
    }
    var idx: Option<map<int, int>> := if code.value in classIndex then Some(classIndex[code.value]) else None;
    var mm;
    mm, ok := WeightMatrices(doc.matrixMap, idx, ups, ids);
    d := doc.(matrixMap := mm);
  }

  /** The loop of `weightUpdateMatrix` over the target matrices; a throw ends it. */
  method WeightMatrices(mm0: map<MatrixKey, Matrix>, idx: Option<map<int, int>>, ups: seq<Upgrade>,
                        ids: seq<MatrixKey>) returns (mm: map<MatrixKey, Matrix>, ok: bool)
    ensures Applied(mm, ok) == WeightAll(mm0, idx, ups, ids)
  {
    mm := mm0;
    for n := 0 to |ids|
      invariant Applied(mm, true) == WeightAll(mm0, idx, ups, ids[..n])
    {
      mm, ok := WeightMatrix(mm0, idx, ups, ids, n, mm);
      if !ok {
        return;
      }
    }
    assert ids[..|ids|] == ids;
    ok := true;
  }

  /** One turn of that loop, on the `n`-th target: an unknown class or card throws. */
  method WeightMatrix(mm0: map<MatrixKey, Matrix>, idx: Option<map<int, int>>, ups: seq<Upgrade>,
                      ids: seq<MatrixKey>, n: nat, mm: map<MatrixKey, Matrix>)
    returns (mm': map<MatrixKey, Matrix>, ok: bool)
    requires n < |ids| && WeightAll(mm0, idx, ups, ids[..n]) == Applied(mm, true)
    ensures Applied(mm', ok) == WeightAll(mm0, idx, ups, ids[..n + 1])
    ensures !ok ==> Applied(mm', ok) == WeightAll(mm0, idx, ups, ids)
  {
    assert ids[..n + 1][..n] == ids[..n];
    var id := ids[n];
    mm' := mm;
    if idx.None? {
      ok := |ups| == 0;
    } else if id !in mm {
      var known := FindKnownReinforce(idx.value, ups);
      ok := !known;
    } else {
      var next;
      next, ok := WeightEntriesLoop(mm[id], idx.value, ups);
      mm' := mm[id := next];
    }
    if !ok {
      WeightAllStops(mm0, idx, ups, ids, n + 1);
    }
  }

  /** The class segment of an id built by `generateDocument` parses back to its class code. */
  lemma ClassOfDocId(version: string, batch: int, typ: string, classCode: int)
    requires '/' !in version && '/' !in typ
    ensures ClassOfDoc(DocId(version, batch, typ, IntToString(classCode))) == Some(classCode)
  {
    IntToStringPlain(classCode);
    ClassSegmentOfDocId(version, batch, typ, IntToString(classCode));
    ParseIntToString(classCode);
  }
}
