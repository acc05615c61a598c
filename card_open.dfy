/**
 * `PseudoCodeRefactoring.cardOpen`: for every card a player was offered
 * ("open cards"), the mean coupling score of that card with the cards the
 * player already holds, and its rank among the scores the replaceable cards
 * of the pool would get in its place. A coupling score of an already held
 * card `a` with a candidate `sel` is `M[a][sel] / M[a][a]` in the
 * coexistence matrix, zero when the diagonal cell is zero.
 *
 * A missing card index, a missing matrix or a coordinate outside the matrix
 * throws in Java; here it is `None`, and it aborts the whole call.
 */
module CardOpen {
  import opened Wrappers
  import opened CardIndex
  import opened MatrixDocs

  /** `double[]{scoreMean, rank}`. */
  datatype Hint = Hint(scoreMean: real, rank: real)

  /** What every score of one call reads: the merged card list, the matrix and the card index. */
  datatype Scoring = Scoring(merged: seq<int>, m: Option<Matrix>, index: map<int, int>)

  /** The coupling score of the held card `a` with the candidate `sel`. */
  function Term(ctx: Scoring, a: int, sel: int): Option<real>
  {
    if a !in ctx.index || sel !in ctx.index || ctx.m.None? then None
    else
      var row := ctx.index[a];
      var col := ctx.index[sel];
      if !(0 <= row < |ctx.m.value|) || !(0 <= col < |ctx.m.value[row]|) || !(row < |ctx.m.value[row]|) then None
      else
        var up := ctx.m.value[row][col];
        var down := ctx.m.value[row][row];
        Some(if down == 0 then 0.0 else up as real / down as real)
  }

  /** The score list of the first `n` merged cards, skipping every occurrence of the open card. */
  function TermsUpTo(ctx: Scoring, n: nat, open: int, sel: int): Option<seq<real>>
    requires n <= |ctx.merged|
  {
    if n == 0 then Some([])
    else
      var p := TermsUpTo(ctx, n - 1, open, sel);
      var a := ctx.merged[n - 1];
      if p.None? || a == open then p
      else
        var t := Term(ctx, a, sel);
        if t.None? then None else Some(p.value + [t.value])
  }

  function RealSum(s: seq<real>): real
  {
    if |s| == 0 then 0.0 else RealSum(s[..|s| - 1]) + s[|s| - 1]
  }

  /** `calculateScoreMean`: the mean of the score list, zero when it is empty. */
  function ScoreMean(ctx: Scoring, open: int, sel: int): Option<real>
  {
    var t := TermsUpTo(ctx, |ctx.merged|, open, sel);
    if t.None? then None
    else if |t.value| == 0 then Some(0.0)
    else Some(RealSum(t.value) / |t.value| as real)
  }

  /** The merged cards that take part in a score: every one but the open card. */
  function Others(s: seq<int>, open: int): (r: seq<int>)
    ensures forall x :: x in r <==> x in s && x != open
  {
    if |s| == 0 then [] else
    var init := Others(s[..|s| - 1], open);
    if s[|s| - 1] == open then init else init + [s[|s| - 1]]
  }

  /** The score of a candidate in place of an open card: `sm(open, sel)`. */
  type ScoreFn = (int, int) -> Option<real>

  /** `calculateScoreMean` over one call's merged list, matrix and index. */
  function Scores(ctx: Scoring): ScoreFn
  {
    (open, sel) => ScoreMean(ctx, open, sel)
  }

  /**
   * `new HashSet<>(cardPool)` minus the merged cards, enumerated once each.
   * The hash set's own order is not modelled: pool order stands for it, and
   * nothing computed from the set depends on the order.
   */
  function ReplaceUpTo(cardPool: seq<int>, merged: seq<int>, n: nat): seq<int>
    requires n <= |cardPool|
  {
    if n == 0 then []
    else
      var p := ReplaceUpTo(cardPool, merged, n - 1);
      var c := cardPool[n - 1];
      if c in merged || c in p then p else p + [c]
  }

  /** The scores of the replaceable cards, or `None` when one of them throws. */
  function ScoresOf(sm: ScoreFn, open: int, replace: seq<int>): Option<seq<real>>
  {
    if |replace| == 0 then Some([])
    else
      var p := ScoresOf(sm, open, replace[..|replace| - 1]);
      var s := sm(open, replace[|replace| - 1]);
      if p.None? || s.None? then None else Some(p.value + [s.value])
  }

  /** How many entries of `s` exceed `x`. */
  function CountAbove(s: seq<real>, x: real): (r: nat)
    ensures r <= |s|
  {
    if |s| == 0 then 0 else CountAbove(s[..|s| - 1], x) + (if s[|s| - 1] > x then 1 else 0)
  }

  /** The hint for one open card: its own mean score, and the share of the score list that beats it. */
  function Entry(sm: ScoreFn, open: int, replace: seq<int>): Option<Hint>
  {
    var own := sm(open, open);
    if own.None? then None
    else
      var others := ScoresOf(sm, open, replace);
      if others.None? then None
      else
        var scoreMeanList := [own.value] + others.value;
        Some(Hint(own.value, CountAbove(scoreMeanList, own.value) as real / |scoreMeanList| as real))
  }

  /** The result map after the first `n` open cards. */
  function ResultsUpTo(sm: ScoreFn, openCards: seq<int>, n: nat, replace: seq<int>): Option<map<int, Hint>>
    requires n <= |openCards|
  {
    if n == 0 then Some(map[])
    else
      var p := ResultsUpTo(sm, openCards, n - 1, replace);
      if p.None? then None
      else
        var e := Entry(sm, openCards[n - 1], replace);
        if e.None? then None else Some(p.value[openCards[n - 1] := e.value])
  }

  /** The loop over the open cards, whatever the scores are. */
  function CardOpenWith(sm: ScoreFn, decks: seq<int>, openCards: seq<int>, cardPool: seq<int>)
    : Option<map<int, Hint>>
  {
    ResultsUpTo(sm, openCards, |openCards|, ReplaceUpTo(cardPool, decks + openCards, |cardPool|))
  }

  /** `cardOpen(decks, openCards, doc, classCode)`, with the pool and the matrix of `doc` as parameters. */
  function CardOpenSpec(decks: seq<int>, openCards: seq<int>, cardPool: seq<int>, m: Option<Matrix>)
    : Option<map<int, Hint>>
  {
    CardOpenWith(Scores(Scoring(decks + openCards, m, LastIndexMap(cardPool))), decks, openCards, cardPool)
  }

  // ------------------------------------------------------------ methods

  lemma {:induction false} TermsStops(ctx: Scoring, n: nat, open: int, sel: int)
    requires n <= |ctx.merged|
    requires TermsUpTo(ctx, n, open, sel).None?
    ensures TermsUpTo(ctx, |ctx.merged|, open, sel).None?
    decreases |ctx.merged| - n
  {
    if n < |ctx.merged| {
      TermsStops(ctx, n + 1, open, sel);
    }
  }

  method CalculateScoreMean(ctx: Scoring, open: int, sel: int) returns (r: Option<real>)
    ensures r == ScoreMean(ctx, open, sel)
  {
    var scoreList: seq<real> := [];
    var i := 0;
    while i < |ctx.merged|
      invariant 0 <= i <= |ctx.merged|
      invariant TermsUpTo(ctx, i, open, sel) == Some(scoreList)
    {
      var already := ctx.merged[i];
      if already != open {
        var t := Term(ctx, already, sel);
        if t.None? {
          TermsStops(ctx, i + 1, open, sel);
          return None;
        }
        scoreList := scoreList + [t.value];
      }
      i := i + 1;
    }
    var scoreSum := 0.0;
    var j := 0;
    while j < |scoreList|
      invariant 0 <= j <= |scoreList|
      invariant scoreSum == RealSum(scoreList[..j])
    {
      assert scoreList[..j + 1][..j] == scoreList[..j];
      scoreSum := scoreSum + scoreList[j];
      j := j + 1;
    }
    assert scoreList[..|scoreList|] == scoreList;
    if |scoreList| == 0 {
      r := Some(0.0);
    } else {
      r := Some(scoreSum / |scoreList| as real);
    }
  }

  lemma {:induction false} ScoresStops(sm: ScoreFn, open: int, replace: seq<int>, n: nat)
    requires n <= |replace|
    requires ScoresOf(sm, open, replace[..n]).None?
    ensures ScoresOf(sm, open, replace).None?
    decreases |replace| - n
  {
    if n < |replace| {
      assert replace[..n + 1][..n] == replace[..n];
      ScoresStops(sm, open, replace, n + 1);
    } else {
      assert replace[..n] == replace;
    }
  }

  /** The scores of the replaceable cards, in the set's order. */
  method ScoreReplaceable(ctx: Scoring, open: int, replace: seq<int>) returns (r: Option<seq<real>>)
    ensures r == ScoresOf(Scores(ctx), open, replace)
  {
    var scores: seq<real> := [];
    var i := 0;
    while i < |replace|
      invariant 0 <= i <= |replace|
      invariant ScoresOf(Scores(ctx), open, replace[..i]) == Some(scores)
    {
      assert replace[..i + 1][..i] == replace[..i];
      var s := CalculateScoreMean(ctx, open, replace[i]);
      if s.None? {
        ScoresStops(Scores(ctx), open, replace, i + 1);
        return None;
      }
      scores := scores + [s.value];
      i := i + 1;
    }
    assert replace[..i] == replace;
    r := Some(scores);
  }

  method OpenEntry(ctx: Scoring, open: int, replace: seq<int>) returns (r: Option<Hint>)
    ensures r == Entry(Scores(ctx), open, replace)
  {
    var scoreMean := CalculateScoreMean(ctx, open, open);
    if scoreMean.None? {
      return None;
    }
    var others := ScoreReplaceable(ctx, open, replace);
    if others.None? {
      return None;
    }
    var scoreMeanList := [scoreMean.value] + others.value;
    var greaterCount := 0;
    var j := 0;
    while j < |scoreMeanList|
      invariant 0 <= j <= |scoreMeanList|
      invariant greaterCount == CountAbove(scoreMeanList[..j], scoreMean.value)
    {
      assert scoreMeanList[..j + 1][..j] == scoreMeanList[..j];
      if scoreMeanList[j] > scoreMean.value {
        greaterCount := greaterCount + 1;
      }
      j := j + 1;
    }
    assert scoreMeanList[..|scoreMeanList|] == scoreMeanList;
    r := Some(Hint(scoreMean.value, greaterCount as real / |scoreMeanList| as real));
  }

  /** `new HashSet<>(cardPool)` followed by `removeAll(mergedList)`. */
  method ReplaceCardPool(cardPool: seq<int>, merged: seq<int>) returns (r: seq<int>)
    ensures r == ReplaceUpTo(cardPool, merged, |cardPool|)
  {
    r := [];
    var i := 0;
    while i < |cardPool|
      invariant 0 <= i <= |cardPool|
      invariant r == ReplaceUpTo(cardPool, merged, i)
    {
      if cardPool[i] !in merged && cardPool[i] !in r {
        r := r + [cardPool[i]];
      }
      i := i + 1;
    }
  }

  lemma {:induction false} ResultsStops(sm: ScoreFn, openCards: seq<int>, n: nat, replace: seq<int>)
    requires n <= |openCards|
    requires ResultsUpTo(sm, openCards, n, replace).None?
    ensures ResultsUpTo(sm, openCards, |openCards|, replace).None?
    decreases |openCards| - n
  {
    if n < |openCards| {
      ResultsStops(sm, openCards, n + 1, replace);
    }
  }

  /** One turn of the loop over the open cards: `results.put(openCard, result)`, or the exception. */
  method AddHint(ctx: Scoring, openCards: seq<int>, i: nat, replace: seq<int>, results: map<int, Hint>)
    returns (r: Option<map<int, Hint>>)
    requires i < |openCards|
    requires ResultsUpTo(Scores(ctx), openCards, i, replace) == Some(results)
    ensures r == ResultsUpTo(Scores(ctx), openCards, i + 1, replace)
    ensures r.None? ==> ResultsUpTo(Scores(ctx), openCards, |openCards|, replace).None?
  {
    var e := OpenEntry(ctx, openCards[i], replace);
    if e.None? {
      ResultsStops(Scores(ctx), openCards, i + 1, replace);
      return None;
    }
    r := Some(results[openCards[i] := e.value]);
  }

  /** The loop over the open cards, one hint each; `None` when a score throws. */
  method HintLoop(ctx: Scoring, openCards: seq<int>, replace: seq<int>) returns (r: Option<map<int, Hint>>)
    ensures r == ResultsUpTo(Scores(ctx), openCards, |openCards|, replace)
  {
    var results: map<int, Hint> := map[];
    for i := 0 to |openCards|
      invariant ResultsUpTo(Scores(ctx), openCards, i, replace) == Some(results)
    {
      var next := AddHint(ctx, openCards, i, replace, results);
      if next.None? {
        return None;
      }
      results := next.value;
    }
    r := Some(results);
  }

  method CardOpenHints(decks: seq<int>, openCards: seq<int>, cardPool: seq<int>, m: Option<Matrix>)
    returns (r: Option<map<int, Hint>>)
    ensures r == CardOpenSpec(decks, openCards, cardPool, m)
  {
    var mergedList := decks + openCards;
    var replaceCardPool := ReplaceCardPool(cardPool, mergedList);
    var cardPoolIndex := BuildIndex(cardPool);
    r := HintLoop(Scoring(mergedList, m, cardPoolIndex), openCards, replaceCardPool);
  }

  // ------------------------------------------------------------ properties

  /** Every one of the cards `o` has a score against `sel`. */
  predicate AllScored(ctx: Scoring, o: seq<int>, sel: int)
  {
    forall k :: 0 <= k < |o| ==> Term(ctx, o[k], sel).Some?
  }

  /** `t` holds the scores of the cards `o` against `sel`, in order. */
  predicate TermsOf(ctx: Scoring, t: seq<real>, o: seq<int>, sel: int)
  {
    |t| == |o| && forall k :: 0 <= k < |o| ==> Some(t[k]) == Term(ctx, o[k], sel)
  }

  /**
   * The score list holds one score per merged card other than the open
   * card, in order; it is missing exactly when one of those scores cannot
   * be computed. The skip compares with the open card, whatever is selected.
   */
  lemma {:induction false} TermsSpec(ctx: Scoring, n: nat, open: int, sel: int)
    requires n <= |ctx.merged|
    ensures TermsUpTo(ctx, n, open, sel).Some? <==> AllScored(ctx, Others(ctx.merged[..n], open), sel)
    ensures TermsUpTo(ctx, n, open, sel).Some? ==>
      TermsOf(ctx, TermsUpTo(ctx, n, open, sel).value, Others(ctx.merged[..n], open), sel)
    decreases n
  {
    if n > 0 {
      TermsSpec(ctx, n - 1, open, sel);
      assert ctx.merged[..n][..n - 1] == ctx.merged[..n - 1];
      var a := ctx.merged[n - 1];
      var o := Others(ctx.merged[..n - 1], open);
      var o' := Others(ctx.merged[..n], open);
      var p := TermsUpTo(ctx, n - 1, open, sel);
      var t := TermsUpTo(ctx, n, open, sel);
      assert o' == if a == open then o else o + [a];
      if p.None? {
        var k :| 0 <= k < |o| && Term(ctx, o[k], sel).None?;
        assert o'[k] == o[k];
        assert t.None? && !AllScored(ctx, o', sel);
      } else if a != open {
        if Term(ctx, a, sel).None? {
          assert o'[|o|] == a;
          assert t.None? && !AllScored(ctx, o', sel);
        } else {
          assert t == Some(p.value + [Term(ctx, a, sel).value]);
          forall k | 0 <= k < |o'|
            ensures Some(t.value[k]) == Term(ctx, o'[k], sel)
          {
            if k < |o| {
              assert o'[k] == o[k] && t.value[k] == p.value[k];
            }
          }
          assert AllScored(ctx, o', sel) && TermsOf(ctx, t.value, o', sel);
        }
      } else {
        assert t == p && o' == o;
      }
    } else {
      assert Others(ctx.merged[..0], open) == [];
    }
  }

  lemma {:induction false} RealSumBounds(s: seq<real>, lo: real, hi: real)
    requires forall k :: 0 <= k < |s| ==> lo <= s[k] <= hi
    ensures |s| as real * lo <= RealSum(s) <= |s| as real * hi
    decreases |s|
  {
    if |s| > 0 {
      var init := s[..|s| - 1];
      var m := |init| as real;
      RealSumBounds(init, lo, hi);
      assert RealSum(s) == RealSum(init) + s[|s| - 1];
      assert m * lo <= RealSum(init) <= m * hi;
      assert |s| as real == m + 1.0;
      assert (m + 1.0) * lo == m * lo + lo && (m + 1.0) * hi == m * hi + hi;
    }
  }

  /**
   * A mean stays within the bounds of its scores: when every coupling score
   * lies in `[lo, hi]` and `lo <= 0 <= hi`, so does the mean (which is zero
   * for an empty list).
   */
  lemma ScoreMeanBounds(ctx: Scoring, open: int, sel: int, lo: real, hi: real)
    requires lo <= 0.0 <= hi
    requires ScoreMean(ctx, open, sel).Some?
    requires forall a :: a in ctx.merged && a != open && Term(ctx, a, sel).Some? ==>
      lo <= Term(ctx, a, sel).value <= hi
    ensures lo <= ScoreMean(ctx, open, sel).value <= hi
  {
    var n := |ctx.merged|;
    TermsSpec(ctx, n, open, sel);
    assert ctx.merged[..n] == ctx.merged;
    var o := Others(ctx.merged, open);
    var t := TermsUpTo(ctx, n, open, sel).value;
    assert TermsOf(ctx, t, o, sel);
    forall k | 0 <= k < |t|
      ensures lo <= t[k] <= hi
    {
      assert o[k] in o;
    }
    MeanBounds(t, lo, hi);
  }

  /** The mean of a non-empty list of values in `[lo, hi]` is in `[lo, hi]`. */
  lemma MeanBounds(t: seq<real>, lo: real, hi: real)
    requires lo <= 0.0 <= hi
    requires forall k :: 0 <= k < |t| ==> lo <= t[k] <= hi
    ensures |t| > 0 ==> lo <= RealSum(t) / |t| as real <= hi
  {
    RealSumBounds(t, lo, hi);
    if |t| > 0 {
      MeanBetween(RealSum(t), |t| as real, lo, hi);
    }
  }

  lemma MeanBetween(sum: real, len: real, lo: real, hi: real)
    requires len > 0.0 && len * lo <= sum <= len * hi
    ensures lo <= sum / len <= hi
  {
  }

  /** The open card's own score at the head of the list never counts as beating it. */
  lemma {:induction false} CountAboveOwnFirst(own: real, rest: seq<real>)
    ensures CountAbove([own] + rest, own) == CountAbove(rest, own)
    decreases |rest|
  {
    if |rest| > 0 {
      var init := rest[..|rest| - 1];
      CountAboveOwnFirst(own, init);
      assert ([own] + rest)[..|rest|] == [own] + init;
    }
  }

  /** Nothing in the list exceeds `x` exactly when the count is zero. */
  lemma {:induction false} CountAboveZero(s: seq<real>, x: real)
    ensures CountAbove(s, x) == 0 <==> forall k :: 0 <= k < |s| ==> s[k] <= x
    decreases |s|
  {
    if |s| > 0 {
      var init := s[..|s| - 1];
      CountAboveZero(init, x);
      if CountAbove(init, x) != 0 {
        var k :| 0 <= k < |init| && init[k] > x;
        assert s[k] == init[k];
      }
    }
  }

  /** The replaceable cards: each card of the pool outside the merged list, once. */
  lemma {:induction false} ReplaceSpec(cardPool: seq<int>, merged: seq<int>, n: nat)
    requires n <= |cardPool|
    ensures Distinct(ReplaceUpTo(cardPool, merged, n))
    ensures forall c :: c in ReplaceUpTo(cardPool, merged, n) <==> c in cardPool[..n] && c !in merged
    decreases n
  {
    if n > 0 {
      ReplaceSpec(cardPool, merged, n - 1);
      assert cardPool[..n] == cardPool[..n - 1] + [cardPool[n - 1]];
    }
  }

  /** Scores line up with the replaceable cards, and are missing exactly when one card's score throws. */
  lemma {:induction false} ScoresSpec(sm: ScoreFn, open: int, replace: seq<int>)
    ensures ScoresOf(sm, open, replace).None? <==> exists k :: 0 <= k < |replace| && sm(open, replace[k]).None?
    ensures ScoresOf(sm, open, replace).Some? ==>
      |ScoresOf(sm, open, replace).value| == |replace| &&
      forall k :: 0 <= k < |replace| ==> Some(ScoresOf(sm, open, replace).value[k]) == sm(open, replace[k])
    decreases |replace|
  {
    if |replace| > 0 {
      var init := replace[..|replace| - 1];
      ScoresSpec(sm, open, init);
      if ScoresOf(sm, open, init).None? {
        var k :| 0 <= k < |init| && sm(open, init[k]).None?;
        assert replace[k] == init[k];
      } else if sm(open, replace[|replace| - 1]).Some? {
        forall k | 0 <= k < |replace|
          ensures sm(open, replace[k]).Some?
        {
          if k < |init| {
            assert replace[k] == init[k];
          }
        }
      }
    }
  }

  /** The cards of `s` whose score in place of `open` beats `own`. */
  function Beating(sm: ScoreFn, open: int, own: real, s: set<int>): set<int>
  {
    set c | c in s && sm(open, c).Some? && sm(open, c).value > own
  }

  /** A list without repeats has as many cards as the set of its cards. */
  lemma {:induction false} DistinctCard(replace: seq<int>)
    requires Distinct(replace)
    ensures |set c | c in replace| == |replace|
    decreases |replace|
  {
    if |replace| > 0 {
      var init := replace[..|replace| - 1];
      assert Distinct(init);
      DistinctCard(init);
      assert replace[|replace| - 1] !in init;
      assert (set c | c in replace) == (set c | c in init) + {replace[|replace| - 1]};
    }
  }

  /** Over a list without repeats, the count of scores beating `own` is the number of cards beating it. */
  lemma {:induction false} CountIsCardinality(sm: ScoreFn, open: int, own: real, replace: seq<int>)
    requires Distinct(replace)
    requires ScoresOf(sm, open, replace).Some?
    ensures CountAbove(ScoresOf(sm, open, replace).value, own) == |Beating(sm, open, own, set c | c in replace)|
    decreases |replace|
  {
    if |replace| > 0 {
      var init := replace[..|replace| - 1];
      var x := replace[|replace| - 1];
      assert Distinct(init);
      CountIsCardinality(sm, open, own, init);
      var p := ScoresOf(sm, open, init).value;
      var v := sm(open, x).value;
      assert (p + [v])[..|p|] == p;
      assert CountAbove(p + [v], own) == CountAbove(p, own) + (if v > own then 1 else 0);
      assert x !in init;
      BeatingAdd(sm, open, own, (set c | c in init), x);
      assert (set c | c in replace) == (set c | c in init) + {x};
    }
  }

  lemma BeatingAdd(sm: ScoreFn, open: int, own: real, s: set<int>, x: int)
    requires x !in s
    requires sm(open, x).Some?
    ensures |Beating(sm, open, own, s + {x})| == |Beating(sm, open, own, s)| + (if sm(open, x).value > own then 1 else 0)
  {
    var b := Beating(sm, open, own, s);
    assert x !in b;
    if sm(open, x).value > own {
      assert Beating(sm, open, own, s + {x}) == b + {x};
    } else {
      assert Beating(sm, open, own, s + {x}) == b;
    }
  }

  lemma ShareBounds(count: nat, size: nat)
    requires count < size
    ensures 0.0 <= count as real / size as real < 1.0
    ensures count as real / size as real == 0.0 <==> count == 0
  {
    var q := count as real / size as real;
    assert q * size as real == count as real;
  }

  /** The hint exists exactly when the open card's score and every replaceable card's score can be computed. */
  lemma EntryExists(sm: ScoreFn, open: int, replace: seq<int>)
    ensures Entry(sm, open, replace).Some? <==>
      sm(open, open).Some? && forall k :: 0 <= k < |replace| ==> sm(open, replace[k]).Some?
  {
    ScoresSpec(sm, open, replace);
  }

  /** The hint's rank in terms of the score list: the count of scores beating the open card's, over one more. */
  lemma EntryShare(sm: ScoreFn, open: int, replace: seq<int>)
    requires Entry(sm, open, replace).Some?
    ensures ScoresOf(sm, open, replace).Some?
    ensures var e := Entry(sm, open, replace).value;
      var others := ScoresOf(sm, open, replace).value;
      e.scoreMean == sm(open, open).value && |others| == |replace| &&
      e.rank == CountAbove(others, e.scoreMean) as real / (|replace| + 1) as real
  {
    ScoresSpec(sm, open, replace);
    var own := sm(open, open).value;
    CountAboveOwnFirst(own, ScoresOf(sm, open, replace).value);
  }

  /**
   * The rank is a share of the score list, which holds the open card's own
   * score and one per replaceable card: it lies in `[0, 1)`, and it is zero
   * exactly when no replaceable card scores strictly higher.
   */
  lemma EntryRank(sm: ScoreFn, open: int, replace: seq<int>)
    requires Entry(sm, open, replace).Some?
    ensures forall k :: 0 <= k < |replace| ==> sm(open, replace[k]).Some?
    ensures var e := Entry(sm, open, replace).value;
      0.0 <= e.rank < 1.0 &&
      (e.rank == 0.0 <==> forall k :: 0 <= k < |replace| ==> sm(open, replace[k]).value <= e.scoreMean)
  {
    EntryExists(sm, open, replace);
    EntryShare(sm, open, replace);
    ScoresSpec(sm, open, replace);
    var e := Entry(sm, open, replace).value;
    var others := ScoresOf(sm, open, replace).value;
    CountAboveZero(others, e.scoreMean);
    ShareBounds(CountAbove(others, e.scoreMean), |replace| + 1);
    assert forall k :: 0 <= k < |replace| ==> others[k] == sm(open, replace[k]).value;
  }

  /**
   * `cardOpen` throws exactly when one open card's hint cannot be computed;
   * otherwise the result has one key per distinct open card, holding that
   * card's hint (a repeated open card recomputes and overwrites the same value).
   */
  lemma {:induction false} ResultsSpec(sm: ScoreFn, openCards: seq<int>, n: nat, replace: seq<int>)
    requires n <= |openCards|
    ensures var r := ResultsUpTo(sm, openCards, n, replace);
      (r.None? <==> exists k :: 0 <= k < n && Entry(sm, openCards[k], replace).None?) &&
      (r.Some? ==> (forall o :: o in r.value <==> o in openCards[..n]) &&
                   forall o :: o in r.value ==> Some(r.value[o]) == Entry(sm, o, replace))
    decreases n
  {
    if n > 0 {
      ResultsSpec(sm, openCards, n - 1, replace);
      assert openCards[..n] == openCards[..n - 1] + [openCards[n - 1]];
      var p := ResultsUpTo(sm, openCards, n - 1, replace);
      if p.None? {
        var k :| 0 <= k < n - 1 && Entry(sm, openCards[k], replace).None?;
        assert 0 <= k < n && Entry(sm, openCards[k], replace).None?;
      } else if Entry(sm, openCards[n - 1], replace).Some? {
        forall k | 0 <= k < n
          ensures Entry(sm, openCards[k], replace).Some?
        {
          if k < n - 1 {
            assert openCards[k] in openCards[..n - 1];
          }
        }
      }
    }
  }

  /**
   * The hint of an open card, in terms of the pool: its mean score, and as
   * rank the number of replaceable cards (pool cards neither in the deck
   * nor open) scoring higher, over one more than the number of replaceable
   * cards. The own score of an open card is on the score list too, and
   * never beats itself.
   */
  lemma CardOpenAt(sm: ScoreFn, decks: seq<int>, openCards: seq<int>, cardPool: seq<int>, o: int)
    requires CardOpenWith(sm, decks, openCards, cardPool).Some?
    requires o in CardOpenWith(sm, decks, openCards, cardPool).value
    ensures var e := CardOpenWith(sm, decks, openCards, cardPool).value[o];
      var replace := set c | c in cardPool && c !in decks && c !in openCards;
      o in openCards &&
      Some(e.scoreMean) == sm(o, o) &&
      (forall c :: c in replace ==> sm(o, c).Some?) &&
      e.rank == |Beating(sm, o, e.scoreMean, replace)| as real / (|replace| + 1) as real
  {
    var merged := decks + openCards;
    var list := ReplaceUpTo(cardPool, merged, |cardPool|);
    ResultsSpec(sm, openCards, |openCards|, list);
    assert openCards[..|openCards|] == openCards;
    ReplaceSpec(cardPool, merged, |cardPool|);
    assert cardPool[..|cardPool|] == cardPool;
    var replace := set c | c in cardPool && c !in decks && c !in openCards;
    assert (set c | c in list) == replace;
    EntryExists(sm, o, list);
    EntryShare(sm, o, list);
    var own := sm(o, o).value;
    CountIsCardinality(sm, o, own, list);
    DistinctCard(list);
    forall c | c in replace
      ensures sm(o, c).Some?
    {
      var k :| 0 <= k < |list| && list[k] == c;
    }
  }
}
