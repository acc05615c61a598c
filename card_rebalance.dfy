/**
 * `MasterHintMatrixCardService.generateRebalanceCard(classCode)`: per card
 * of one class's card pool, how often it was picked within the class and
 * how often picking it led to a win, in the live batch, ordered by that win
 * rate and then by the pick rate, both non-increasing.
 *
 * A card is read at its own diagonal cell, through the class's index map, of
 * the "-1/-1" matrix of the class's coexistence document. Every exception
 * propagates out of `generateRebalanceCard`: the result is `None`.
 */
module CardRebalance {
  import opened Wrappers
  import opened Text
  import opened Sorting
  import opened MatrixDocs
  import opened Ingest
  import opened Rates

  function MatrixOf(d: Doc): Option<Matrix>
  {
    if AllKey in d.matrixMap then Some(d.matrixMap[AllKey]) else None
  }

  /**
   * `matrix.get(cardIndex).get(cardIndex)` with `cardIndex =
   * classCardPoolIndex.get(cardId)`: a missing index map, a card missing from
   * it (unboxing `null`), a missing matrix or an index out of range throws.
   */
  function CellAt(m: Option<Matrix>, idx: Option<map<int, int>>, card: int): Option<int>
  {
    if idx.None? || card !in idx.value || m.None? then None
    else
      var ci := idx.value[card];
      if 0 <= ci < |m.value| && 0 <= ci < |m.value[ci]| then Some(m.value[ci][ci]) else None
  }

  /** The cells of the given cards, in order, or `None` at the first that throws. */
  function Cells(cards: seq<int>, m: Option<Matrix>, idx: Option<map<int, int>>): (r: Option<seq<int>>)
    ensures r.Some? ==> |r.value| == |cards|
  {
    if |cards| == 0 then Some([])
    else
      var p := Cells(cards[..|cards| - 1], m, idx);
      var c := CellAt(m, idx, cards[|cards| - 1]);
      if p.None? || c.None? then None else Some(p.value + [c.value])
  }

  function Ids(rs: seq<Rebalance>): (r: seq<int>)
    ensures |r| == |rs|
  {
    seq(|rs|, i requires 0 <= i < |rs| => rs[i].id)
  }

  /** `setPick` on one coexistence document of the class: every card's cell over a ninth of their sum. */
  function WithPicks(rs: seq<Rebalance>, cells: seq<int>): (r: seq<Rebalance>)
    requires |cells| == |rs|
    ensures |r| == |rs|
  {
    var total := JavaDiv(Sum(cells), 9);
    seq(|rs|, i requires 0 <= i < |rs| => rs[i].(pick := Count(cells[i], total, Quotient(cells[i], total))))
  }

  /** `setWin` on one coexistence win document of the class: every card's cell over its pick count. */
  function WithWins(rs: seq<Rebalance>, cells: seq<int>): (r: seq<Rebalance>)
    requires |cells| == |rs|
    ensures |r| == |rs|
  {
    seq(|rs|, i requires 0 <= i < |rs| =>
      rs[i].(win := Count(cells[i], rs[i].pick.up, Quotient(cells[i], rs[i].pick.up))))
  }

  /** A C document whose id has a fourth `/`-field equal to the class code rendered in decimal. */
  predicate OfClass(d: Doc, code: int)
  {
    d.typ != "T" && ClassSegment(d.id) == Some(IntToString(code))
  }

  /** One document of the loop; T documents are skipped before the id is split. */
  function CardStep(rs: seq<Rebalance>, d: Doc, code: int, idx: Option<map<int, int>>, pick: bool)
    : Option<seq<Rebalance>>
  {
    if d.typ == "T" then Some(rs)
    else if ClassSegment(d.id).None? then None
    else if !OfClass(d, code) then Some(rs)
    else
      var cells := Cells(Ids(rs), MatrixOf(d), idx);
      if cells.None? then None
      else Some(if pick then WithPicks(rs, cells.value) else WithWins(rs, cells.value))
  }

  function CardScanUpTo(rs: seq<Rebalance>, docs: seq<Doc>, n: nat, code: int, idx: Option<map<int, int>>,
                        pick: bool): Option<seq<Rebalance>>
    requires n <= |docs|
  {
    if n == 0 then Some(rs)
    else
      var p := CardScanUpTo(rs, docs, n - 1, code, idx, pick);
      if p.None? then None else CardStep(p.value, docs[n - 1], code, idx, pick)
  }

  /** One result per card of the pool, in pool order; the name comes from `allCardPoolMap`. */
  function Initial(pool: seq<int>, names: map<int, string>): (r: seq<Rebalance>)
    ensures |r| == |pool|
  {
    seq(|pool|, i requires 0 <= i < |pool| =>
      Rebalance("card", pool[i], if pool[i] in names then Some(names[pool[i]]) else None, Zero, Zero, None))
  }

  /** The results before the final sort. */
  function Unsorted(code: int, classCardPoolMap: map<int, seq<int>>, names: map<int, string>,
                    indexMap: map<int, map<int, int>>, ds: seq<Doc>, ws: seq<Doc>): Option<seq<Rebalance>>
  {
    if code !in classCardPoolMap then None
    else
      var idx := if code in indexMap then Some(indexMap[code]) else None;
      var p := CardScanUpTo(Initial(classCardPoolMap[code], names), ds, |ds|, code, idx, true);
      if p.None? then None
      else
        var w := CardScanUpTo(p.value, ws, |ws|, code, idx, false);
        if w.None? then None else Some(WithWinWhenPick(w.value))
  }

  /** `winWhenPick`, set on every result before the sort. */
  function WhenPick(x: Rebalance): Rate
  {
    if x.winWhenPick.Some? then x.winWhenPick.value else NaN
  }

  /**
   * The sort comparator: `winWhenPick` reversed, then the pick rate reversed.
   * `x` may precede `y` when this comparator does not place `y` first.
   */
  predicate CardBefore(x: Rebalance, y: Rebalance)
  {
    var c := Compare(WhenPick(y), WhenPick(x));
    c < 0 || (c == 0 && Compare(y.pick.rate, x.pick.rate) <= 0)
  }

  /** `generateRebalanceCard(classCode)` over the live batch. */
  function RebalanceCard(code: int, classCardPoolMap: map<int, seq<int>>, names: map<int, string>,
                         indexMap: map<int, map<int, int>>, pickStore: seq<Doc>, winStore: seq<Doc>,
                         current: string, batch: int): Option<seq<Rebalance>>
  {
    var u := Unsorted(code, classCardPoolMap, names, indexMap,
                      GetDocumentByBatch(pickStore, current, batch), GetDocumentByBatch(winStore, current, batch));
    if u.None? then None else Some(SortBy(u.value, CardBefore))
  }

  // ---------------------------------------------------------------- methods

  method ReadCells(cards: seq<int>, m: Option<Matrix>, idx: Option<map<int, int>>) returns (r: Option<seq<int>>)
    ensures r == Cells(cards, m, idx)
  {
    var cells: seq<int> := [];
    var i := 0;
    while i < |cards|
      invariant 0 <= i <= |cards|
      invariant Cells(cards[..i], m, idx) == Some(cells)
    {
      assert cards[..i + 1][..i] == cards[..i];
      var c := CellAt(m, idx, cards[i]);
      if c.None? {
        CellsStop(cards, m, idx, i + 1);
        return None;
      }
      cells := cells + [c.value];
      i := i + 1;
    }
    assert cards[..i] == cards;
    return Some(cells);
  }

  lemma {:induction false} CellsStop(cards: seq<int>, m: Option<Matrix>, idx: Option<map<int, int>>, n: nat)
    requires n <= |cards|
    requires Cells(cards[..n], m, idx).None?
    ensures Cells(cards, m, idx).None?
    decreases |cards| - n
  {
    if n < |cards| {
      assert cards[..n + 1][..n] == cards[..n];
      CellsStop(cards, m, idx, n + 1);
    } else {
      assert cards[..n] == cards;
    }
  }

  method SumCells(cells: seq<int>) returns (t: int)
    ensures t == Sum(cells)
  {
    t := 0;
    var i := 0;
    while i < |cells|
      invariant 0 <= i <= |cells| && t == Sum(cells[..i])
    {
      assert cells[..i + 1][..i] == cells[..i];
      t := t + cells[i];
      i := i + 1;
    }
    assert cells[..i] == cells;
  }

  /** The body of `setPick` or `setWin` for one document. */
  method ApplyDoc(rs: seq<Rebalance>, doc: Doc, code: int, idx: Option<map<int, int>>, pick: bool)
    returns (r: Option<seq<Rebalance>>)
    ensures r == CardStep(rs, doc, code, idx, pick)
  {
    if doc.typ == "T" {
      return Some(rs);
    }
    var classCodeStr := ClassSegment(doc.id);
    if classCodeStr.None? {
      return None;
    }
    if classCodeStr.value != IntToString(code) {
      return Some(rs);
    }
    var cells := ReadCells(Ids(rs), MatrixOf(doc), idx);
    if cells.None? {
      return None;
    }
    if pick {
      var withPicks := AssignPicks(rs, cells.value);
      return Some(withPicks);
    }
    var withWins := AssignWins(rs, cells.value);
    return Some(withWins);
  }

  method AssignPicks(rs: seq<Rebalance>, c: seq<int>) returns (out: seq<Rebalance>)
    requires |c| == |rs|
    ensures out == WithPicks(rs, c)
  {
    var total := SumCells(c);
    total := JavaDiv(total, 9);
    out := [];
    var i := 0;
    while i < |rs|
      invariant 0 <= i <= |rs| && |out| == i
      invariant forall j :: 0 <= j < i ==> out[j] == WithPicks(rs, c)[j]
    {
      out := out + [rs[i].(pick := Count(c[i], total, Quotient(c[i], total)))];
      i := i + 1;
    }
  }

  method AssignWins(rs: seq<Rebalance>, c: seq<int>) returns (out: seq<Rebalance>)
    requires |c| == |rs|
    ensures out == WithWins(rs, c)
  {
    out := [];
    var i := 0;
    while i < |rs|
      invariant 0 <= i <= |rs| && |out| == i
      invariant forall j :: 0 <= j < i ==> out[j] == WithWins(rs, c)[j]
    {
      var pickCount := rs[i].pick.up;
      out := out + [rs[i].(win := Count(c[i], pickCount, Quotient(c[i], pickCount)))];
      i := i + 1;
    }
  }

  lemma {:induction false} CardScanStops(rs: seq<Rebalance>, docs: seq<Doc>, n: nat, m: nat, code: int,
                                         idx: Option<map<int, int>>, pick: bool)
    requires n <= m <= |docs|
    requires CardScanUpTo(rs, docs, n, code, idx, pick).None?
    ensures CardScanUpTo(rs, docs, m, code, idx, pick).None?
    decreases m
  {
    if m > n {
      CardScanStops(rs, docs, n, m - 1, code, idx, pick);
    }
  }

  /** `setPick(results, pickMatrix, classCode)` or `setWin(results, winMatrix, classCode)`. */
  method SetCards(rs: seq<Rebalance>, docs: seq<Doc>, code: int, idx: Option<map<int, int>>, pick: bool)
    returns (r: Option<seq<Rebalance>>)
    ensures r == CardScanUpTo(rs, docs, |docs|, code, idx, pick)
  {
    var results := rs;
    var i := 0;
    while i < |docs|
      invariant 0 <= i <= |docs|
      invariant CardScanUpTo(rs, docs, i, code, idx, pick) == Some(results)
    {
      var next := ApplyDoc(results, docs[i], code, idx, pick);
      if next.None? {
        CardScanStops(rs, docs, i + 1, |docs|, code, idx, pick);
        return None;
      }
      results := next.value;
      i := i + 1;
    }
    return Some(results);
  }

  /** `results.sort(...)`: each result is inserted in turn into the sorted suffix. */
  method SortCards(rs: seq<Rebalance>) returns (r: seq<Rebalance>)
    ensures r == SortBy(rs, CardBefore)
  {
    r := [];
    var i := |rs|;
    while i > 0
      invariant 0 <= i <= |rs| && r == SortBy(rs[i..], CardBefore)
    {
      i := i - 1;
      assert rs[i..][1..] == rs[i + 1..];
      r := Insert(rs[i], r, CardBefore);
    }
  }

  method GenerateRebalanceCard(code: int, classCardPoolMap: map<int, seq<int>>, names: map<int, string>,
                               indexMap: map<int, map<int, int>>, pickStore: seq<Doc>, winStore: seq<Doc>,
                               current: string, batch: int) returns (r: Option<seq<Rebalance>>)
    ensures r == RebalanceCard(code, classCardPoolMap, names, indexMap, pickStore, winStore, current, batch)
  {
    if code !in classCardPoolMap {
      return None;
    }
    var pool := classCardPoolMap[code];
    var results: seq<Rebalance> := [];
    var i := 0;
    while i < |pool|
      invariant 0 <= i <= |pool| && results == Initial(pool[..i], names)
    {
      var name := if pool[i] in names then Some(names[pool[i]]) else None;
      results := results + [Rebalance("card", pool[i], name, Zero, Zero, None)];
      i := i + 1;
    }
    assert pool[..i] == pool;
    var pickMatrix := GetDocumentByBatch(pickStore, current, batch);
    var winMatrix := GetDocumentByBatch(winStore, current, batch);
    var idx := if code in indexMap then Some(indexMap[code]) else None;
    var picked := SetCards(results, pickMatrix, code, idx, true);
    if picked.None? {
      return None;
    }
    var won := SetCards(picked.value, winMatrix, code, idx, false);
    if won.None? {
      return None;
    }
    var withRates := SetWinWhenPick(won.value);
    var sorted := SortCards(withRates);
    return Some(sorted);
  }

  // -------------------------------------------------------------- the order

  /** The comparator is a total preorder, so the stable sort is well defined. */
  lemma CardBeforeTotal()
    ensures TotalPreorder(CardBefore)
  {
    forall a, b
      ensures CardBefore(a, b) || CardBefore(b, a)
    {
      CompareOrder(WhenPick(a), WhenPick(b), WhenPick(a));
      CompareOrder(a.pick.rate, b.pick.rate, a.pick.rate);
    }
    forall a, b, c | CardBefore(a, b) && CardBefore(b, c)
      ensures CardBefore(a, c)
    {
      CompareOrder(WhenPick(c), WhenPick(b), WhenPick(a));
      CompareOrder(c.pick.rate, b.pick.rate, a.pick.rate);
    }
  }

  /**
   * The returned list is a permutation of the per-card results, ordered by
   * `winWhenPick` non-increasing, and by the pick rate non-increasing among
   * equal `winWhenPick`s (in `Double.compare` order).
   */
  lemma RebalanceCardSorted(code: int, classCardPoolMap: map<int, seq<int>>, names: map<int, string>,
                            indexMap: map<int, map<int, int>>, pickStore: seq<Doc>, winStore: seq<Doc>,
                            current: string, batch: int)
    ensures var r := RebalanceCard(code, classCardPoolMap, names, indexMap, pickStore, winStore, current, batch);
      var u := Unsorted(code, classCardPoolMap, names, indexMap,
                        GetDocumentByBatch(pickStore, current, batch), GetDocumentByBatch(winStore, current, batch));
      r.Some? == u.Some? &&
      (r.Some? ==>
         multiset(r.value) == multiset(u.value) &&
         forall i, j :: 0 <= i < j < |r.value| ==>
           Compare(WhenPick(r.value[j]), WhenPick(r.value[i])) <= 0 &&
           (WhenPick(r.value[j]) == WhenPick(r.value[i]) ==> Compare(r.value[j].pick.rate, r.value[i].pick.rate) <= 0))
  {
    var r := RebalanceCard(code, classCardPoolMap, names, indexMap, pickStore, winStore, current, batch);
    if r.Some? {
      var u := Unsorted(code, classCardPoolMap, names, indexMap,
                        GetDocumentByBatch(pickStore, current, batch), GetDocumentByBatch(winStore, current, batch));
      CardBeforeTotal();
      SortBySorted(u.value, CardBefore);
      forall i, j | 0 <= i < j < |r.value|
        ensures Compare(WhenPick(r.value[j]), WhenPick(r.value[i])) <= 0
        ensures WhenPick(r.value[j]) == WhenPick(r.value[i]) ==> Compare(r.value[j].pick.rate, r.value[i].pick.rate) <= 0
      {
        assert CardBefore(r.value[i], r.value[j]);
        CompareOrder(WhenPick(r.value[j]), WhenPick(r.value[i]), WhenPick(r.value[j]));
      }
    }
  }

  // ------------------------------------------------------------ the figures

  /** The last C document of class `code` among the first `n`: the one whose figures survive. */
  function LastOfClass(docs: seq<Doc>, code: int, n: nat): Option<Doc>
    requires n <= |docs|
  {
    if n == 0 then None
    else if OfClass(docs[n - 1], code) then Some(docs[n - 1])
    else LastOfClass(docs, code, n - 1)
  }

  /** A document that makes the loop throw: a C document with a short id, or one of the class with an unreadable cell. */
  predicate Unreadable(d: Doc, code: int, cards: seq<int>, idx: Option<map<int, int>>)
  {
    d.typ != "T" && (ClassSegment(d.id).None? || (OfClass(d, code) && Cells(cards, MatrixOf(d), idx).None?))
  }

  /** What a document of the class leaves in the results, on its own. */
  function Effect(rs: seq<Rebalance>, l: Option<Doc>, idx: Option<map<int, int>>, pick: bool): seq<Rebalance>
  {
    if l.None? then rs
    else
      var c := Cells(Ids(rs), MatrixOf(l.value), idx);
      if c.None? then rs else if pick then WithPicks(rs, c.value) else WithWins(rs, c.value)
  }

  function PickUps(rs: seq<Rebalance>): (r: seq<int>)
    ensures |r| == |rs|
  {
    seq(|rs|, i requires 0 <= i < |rs| => rs[i].pick.up)
  }

  /** Each cell is the card's diagonal cell; the list exists exactly when every card's cell can be read. */
  lemma {:induction false} CellsSpec(cards: seq<int>, m: Option<Matrix>, idx: Option<map<int, int>>)
    ensures Cells(cards, m, idx).None? <==> exists i :: 0 <= i < |cards| && CellAt(m, idx, cards[i]).None?
    ensures Cells(cards, m, idx).Some? ==>
      forall i :: 0 <= i < |cards| ==> Some(Cells(cards, m, idx).value[i]) == CellAt(m, idx, cards[i])
    decreases |cards|
  {
    if |cards| > 0 {
      var init := cards[..|cards| - 1];
      CellsSpec(init, m, idx);
      if Cells(init, m, idx).None? {
        var i :| 0 <= i < |init| && CellAt(m, idx, init[i]).None?;
        assert cards[i] == init[i];
      } else if CellAt(m, idx, cards[|cards| - 1]).Some? {
        forall i | 0 <= i < |cards|
          ensures CellAt(m, idx, cards[i]).Some?
        {
          if i < |init| {
            assert cards[i] == init[i];
          }
        }
      }
    }
  }

  lemma CellsDependOnIds(rs: seq<Rebalance>, cells: seq<int>)
    requires |cells| == |rs|
    ensures Ids(WithPicks(rs, cells)) == Ids(rs) && Ids(WithWins(rs, cells)) == Ids(rs)
  {
  }

  /** A later document of the class overwrites every figure an earlier one set. */
  lemma Overwrites(rs: seq<Rebalance>, c1: seq<int>, c2: seq<int>)
    requires |c1| == |rs| && |c2| == |rs|
    ensures WithPicks(WithPicks(rs, c1), c2) == WithPicks(rs, c2)
    ensures WithWins(WithWins(rs, c1), c2) == WithWins(rs, c2)
  {
  }

  lemma EffectIds(rs: seq<Rebalance>, l: Option<Doc>, idx: Option<map<int, int>>, pick: bool)
    ensures |Effect(rs, l, idx, pick)| == |rs| && Ids(Effect(rs, l, idx, pick)) == Ids(rs)
  {
    if l.Some? {
      var c := Cells(Ids(rs), MatrixOf(l.value), idx);
      if c.Some? {
        CellsDependOnIds(rs, c.value);
      }
    }
  }

  /** One more document throws exactly when it is unreadable. */
  lemma StepFails(rs: seq<Rebalance>, l: Option<Doc>, d: Doc, code: int, idx: Option<map<int, int>>, pick: bool)
    ensures CardStep(Effect(rs, l, idx, pick), d, code, idx, pick).None? <==> Unreadable(d, code, Ids(rs), idx)
  {
    EffectIds(rs, l, idx, pick);
  }

  /** One more document of the class replaces the effect of the previous one. */
  lemma StepEffect(rs: seq<Rebalance>, l: Option<Doc>, d: Doc, code: int, idx: Option<map<int, int>>, pick: bool)
    requires CardStep(Effect(rs, l, idx, pick), d, code, idx, pick).Some?
    ensures CardStep(Effect(rs, l, idx, pick), d, code, idx, pick).value ==
      Effect(rs, if OfClass(d, code) then Some(d) else l, idx, pick)
  {
    EffectIds(rs, l, idx, pick);
    if OfClass(d, code) && l.Some? {
      var c1 := Cells(Ids(rs), MatrixOf(l.value), idx);
      var c := Cells(Ids(rs), MatrixOf(d), idx);
      if c1.Some? && c.Some? {
        Overwrites(rs, c1.value, c.value);
      }
    }
  }

  /** The loop over the first `n` documents throws exactly when one of them is unreadable. */
  lemma {:induction false} CardScanFails(rs: seq<Rebalance>, docs: seq<Doc>, n: nat, code: int,
                                         idx: Option<map<int, int>>, pick: bool)
    requires n <= |docs|
    ensures CardScanUpTo(rs, docs, n, code, idx, pick).None? <==>
      exists k :: 0 <= k < n && Unreadable(docs[k], code, Ids(rs), idx)
    decreases n
  {
    if n > 0 {
      CardScanFails(rs, docs, n - 1, code, idx, pick);
      var p := CardScanUpTo(rs, docs, n - 1, code, idx, pick);
      if p.None? {
        var k :| 0 <= k < n - 1 && Unreadable(docs[k], code, Ids(rs), idx);
        assert 0 <= k < n && Unreadable(docs[k], code, Ids(rs), idx);
      } else {
        CardScanLast(rs, docs, n - 1, code, idx, pick);
        StepFails(rs, LastOfClass(docs, code, n - 1), docs[n - 1], code, idx, pick);
        if !Unreadable(docs[n - 1], code, Ids(rs), idx) {
          forall k | 0 <= k < n
            ensures !Unreadable(docs[k], code, Ids(rs), idx)
          {
            if k < n - 1 {
              assert !(0 <= k < n - 1 && Unreadable(docs[k], code, Ids(rs), idx));
            }
          }
        }
      }
    }
  }

  /** When it does not throw, the results are what the last C document of the class alone leaves in them. */
  lemma {:induction false} CardScanLast(rs: seq<Rebalance>, docs: seq<Doc>, n: nat, code: int,
                                        idx: Option<map<int, int>>, pick: bool)
    requires n <= |docs|
    ensures CardScanUpTo(rs, docs, n, code, idx, pick).Some? ==>
      CardScanUpTo(rs, docs, n, code, idx, pick).value == Effect(rs, LastOfClass(docs, code, n), idx, pick)
    decreases n
  {
    if n > 0 {
      CardScanLast(rs, docs, n - 1, code, idx, pick);
      var p := CardScanUpTo(rs, docs, n - 1, code, idx, pick);
      if p.Some? && CardStep(p.value, docs[n - 1], code, idx, pick).Some? {
        StepEffect(rs, LastOfClass(docs, code, n - 1), docs[n - 1], code, idx, pick);
      }
    }
  }

  /** The last document of the class is one of the documents. */
  lemma {:induction false} LastOfClassFound(docs: seq<Doc>, code: int, n: nat)
    requires n <= |docs|
    requires LastOfClass(docs, code, n).Some?
    ensures exists k :: 0 <= k < n && docs[k] == LastOfClass(docs, code, n).value && OfClass(docs[k], code)
    decreases n
  {
    if !OfClass(docs[n - 1], code) {
      LastOfClassFound(docs, code, n - 1);
    }
  }

  /** Without an unreadable document, the last document of the class yields every cell. */
  lemma LastReadable(docs: seq<Doc>, code: int, cards: seq<int>, idx: Option<map<int, int>>)
    requires forall k :: 0 <= k < |docs| ==> !Unreadable(docs[k], code, cards, idx)
    requires LastOfClass(docs, code, |docs|).Some?
    ensures Cells(cards, MatrixOf(LastOfClass(docs, code, |docs|).value), idx).Some?
  {
    LastOfClassFound(docs, code, |docs|);
  }

  lemma {:induction false} SumZeros(s: seq<int>)
    requires forall i :: 0 <= i < |s| ==> s[i] == 0
    ensures Sum(s) == 0
    decreases |s|
  {
    if |s| > 0 {
      SumZeros(s[..|s| - 1]);
    }
  }

  /** The coexistence pick document of the class sets figure `i` from the card's cell; nothing else of the result changes. */
  lemma EffectPickAt(rs: seq<Rebalance>, l: Option<Doc>, idx: Option<map<int, int>>, i: nat)
    requires i < |rs|
    requires l.Some? ==> Cells(Ids(rs), MatrixOf(l.value), idx).Some?
    ensures var e := Effect(rs, l, idx, true);
      |e| == |rs| && e[i].(pick := rs[i].pick) == rs[i] &&
      (l.None? ==> e == rs) &&
      (l.Some? ==> Some(e[i].pick.up) == CellAt(MatrixOf(l.value), idx, rs[i].id) &&
                   e[i].pick.down == JavaDiv(Sum(PickUps(e)), 9) &&
                   e[i].pick.rate == Quotient(e[i].pick.up, e[i].pick.down))
  {
    if l.Some? {
      var c := Cells(Ids(rs), MatrixOf(l.value), idx);
      CellsSpec(Ids(rs), MatrixOf(l.value), idx);
      assert PickUps(WithPicks(rs, c.value)) == c.value;
    }
  }

  /** The coexistence win document of the class sets figure `i` over its pick count; nothing else changes. */
  lemma EffectWinAt(rs: seq<Rebalance>, l: Option<Doc>, idx: Option<map<int, int>>, i: nat)
    requires i < |rs|
    requires l.Some? ==> Cells(Ids(rs), MatrixOf(l.value), idx).Some?
    ensures var e := Effect(rs, l, idx, false);
      |e| == |rs| && e[i].(win := rs[i].win) == rs[i] && PickUps(e) == PickUps(rs) &&
      (l.None? ==> e == rs) &&
      (l.Some? ==> Some(e[i].win.up) == CellAt(MatrixOf(l.value), idx, rs[i].id) &&
                   e[i].win == Count(e[i].win.up, rs[i].pick.up, Quotient(e[i].win.up, rs[i].pick.up)))
  {
    if l.Some? {
      CellsSpec(Ids(rs), MatrixOf(l.value), idx);
    }
  }

  function IndexOf(code: int, indexMap: map<int, map<int, int>>): Option<map<int, int>>
  {
    if code in indexMap then Some(indexMap[code]) else None
  }

  /**
   * `generateRebalanceCard` fails exactly when the class has no card pool or
   * an unreadable document is in the live batch of either collection.
   */
  lemma UnsortedFails(code: int, classCardPoolMap: map<int, seq<int>>, names: map<int, string>,
                      indexMap: map<int, map<int, int>>, ds: seq<Doc>, ws: seq<Doc>)
    ensures Unsorted(code, classCardPoolMap, names, indexMap, ds, ws).None? <==>
      code !in classCardPoolMap ||
      (exists k :: 0 <= k < |ds| && Unreadable(ds[k], code, classCardPoolMap[code], IndexOf(code, indexMap))) ||
      (exists k :: 0 <= k < |ws| && Unreadable(ws[k], code, classCardPoolMap[code], IndexOf(code, indexMap)))
  {
    if code in classCardPoolMap {
      var pool := classCardPoolMap[code];
      var idx := IndexOf(code, indexMap);
      var rs := Initial(pool, names);
      assert Ids(rs) == pool;
      CardScanFails(rs, ds, |ds|, code, idx, true);
      CardScanLast(rs, ds, |ds|, code, idx, true);
      var p := CardScanUpTo(rs, ds, |ds|, code, idx, true);
      if p.Some? {
        EffectIds(rs, LastOfClass(ds, code, |ds|), idx, true);
        CardScanFails(p.value, ws, |ws|, code, idx, false);
      }
    }
  }

  /** The two document loops of `generateRebalanceCard`, as the effect of the last document of each. */
  lemma UnsortedStages(code: int, classCardPoolMap: map<int, seq<int>>, names: map<int, string>,
                       indexMap: map<int, map<int, int>>, ds: seq<Doc>, ws: seq<Doc>)
    requires Unsorted(code, classCardPoolMap, names, indexMap, ds, ws).Some?
    ensures code in classCardPoolMap
    ensures var pool := classCardPoolMap[code];
      var idx := IndexOf(code, indexMap);
      var lp := LastOfClass(ds, code, |ds|);
      var lw := LastOfClass(ws, code, |ws|);
      var p := Effect(Initial(pool, names), lp, idx, true);
      (lp.Some? ==> Cells(pool, MatrixOf(lp.value), idx).Some?) &&
      (lw.Some? ==> Cells(pool, MatrixOf(lw.value), idx).Some?) &&
      Ids(p) == pool &&
      Unsorted(code, classCardPoolMap, names, indexMap, ds, ws).value == WithWinWhenPick(Effect(p, lw, idx, false))
  {
    var pool := classCardPoolMap[code];
    var idx := IndexOf(code, indexMap);
    var rs := Initial(pool, names);
    assert Ids(rs) == pool;
    UnsortedFails(code, classCardPoolMap, names, indexMap, ds, ws);
    CardScanLast(rs, ds, |ds|, code, idx, true);
    var lp := LastOfClass(ds, code, |ds|);
    EffectIds(rs, lp, idx, true);
    var p := Effect(rs, lp, idx, true);
    CardScanLast(p, ws, |ws|, code, idx, false);
    if lp.Some? {
      LastReadable(ds, code, pool, idx);
    }
    if LastOfClass(ws, code, |ws|).Some? {
      LastReadable(ws, code, pool, idx);
    }
  }

  /**
   * Otherwise, before the sort, result `i` is card `i` of the pool, with its
   * name. Its pick count is its diagonal cell in the last coexistence
   * document of the class (zero figures without one), over a ninth of all
   * the cards' pick counts; its win count is its diagonal cell in the last
   * such win document, over its pick count; `winWhenPick` is wins over picks.
   */
  lemma UnsortedAt(code: int, classCardPoolMap: map<int, seq<int>>, names: map<int, string>,
                   indexMap: map<int, map<int, int>>, ds: seq<Doc>, ws: seq<Doc>, i: nat)
    requires Unsorted(code, classCardPoolMap, names, indexMap, ds, ws).Some?
    requires code in classCardPoolMap && i < |classCardPoolMap[code]|
    ensures var pool := classCardPoolMap[code];
      var u := Unsorted(code, classCardPoolMap, names, indexMap, ds, ws).value;
      var idx := IndexOf(code, indexMap);
      var lp := LastOfClass(ds, code, |ds|);
      var lw := LastOfClass(ws, code, |ws|);
      |u| == |pool| && u[i].kind == "card" && u[i].id == pool[i] &&
      u[i].name == (if pool[i] in names then Some(names[pool[i]]) else None) &&
      u[i].pick.down == JavaDiv(Sum(PickUps(u)), 9) &&
      (lp.None? ==> u[i].pick == Zero) &&
      (lp.Some? ==> Some(u[i].pick.up) == CellAt(MatrixOf(lp.value), idx, pool[i]) &&
                    u[i].pick.rate == Quotient(u[i].pick.up, u[i].pick.down)) &&
      (lw.None? ==> u[i].win == Zero) &&
      (lw.Some? ==> Some(u[i].win.up) == CellAt(MatrixOf(lw.value), idx, pool[i]) &&
                    u[i].win == Count(u[i].win.up, u[i].pick.up, Quotient(u[i].win.up, u[i].pick.up))) &&
      u[i].winWhenPick == Some(Quotient(u[i].win.up, u[i].pick.up))
  {
    var pool := classCardPoolMap[code];
    var idx := IndexOf(code, indexMap);
    var lp := LastOfClass(ds, code, |ds|);
    var lw := LastOfClass(ws, code, |ws|);
    var rs := Initial(pool, names);
    assert Ids(rs) == pool;
    UnsortedStages(code, classCardPoolMap, names, indexMap, ds, ws);
    var p := Effect(rs, lp, idx, true);
    EffectPickAt(rs, lp, idx, i);
    if lp.None? {
      SumZeros(PickUps(p));
    }
    var w := Effect(p, lw, idx, false);
    EffectWinAt(p, lw, idx, i);
    var u := WithWinWhenPick(w);
    assert PickUps(u) == PickUps(w);
  }
}
