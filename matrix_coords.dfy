/**
 * The coordinate lists one player's draft log contributes to the frequency
 * matrices (GamerHintMatrixSubService.generateCoexistenceXY and
 * generateTransitionXY).
 *
 * A log holds three rounds of card ids. Before use every card id is replaced
 * by its position in the class's card pool; a card the pool does not hold
 * becomes `null` (here `None`), and reading such an entry as an `int` raises a
 * NullPointerException, which discards the coordinate list (`None` result).
 * `Val` reads an entry that is known to be present.
 */
module MatrixCoords {
  import opened Wrappers

  /** One `int[] {row, col}` of a coordinate list. */
  datatype Coord = Coord(row: int, col: int)

  /**
   * A player's log (`PlayerLogRequestDto`): its class, its score per round and
   * its three rounds of picks. The round lists hold `Integer`s, so they can
   * hold `null` once rewritten.
   */
  class PlayerLog {
    var classCode: int
    var roundScore: seq<int>
    var round1: seq<Option<int>>
    var round2: seq<Option<int>>
    var round3: seq<Option<int>>

    constructor (classCode: int, roundScore: seq<int>,
                 round1: seq<Option<int>>, round2: seq<Option<int>>, round3: seq<Option<int>>)
      ensures this.classCode == classCode && this.roundScore == roundScore
      ensures this.round1 == round1 && this.round2 == round2 && this.round3 == round3
    {
      this.classCode := classCode;
      this.roundScore := roundScore;
      this.round1 := round1;
      this.round2 := round2;
      this.round3 := round3;
    }
  }

  function Val(x: Option<int>): int
  {
    if x.Some? then x.value else 0
  }

  /** `cardPoolIndexMap.get(x)`: the card's position, or `null` for an unknown card. */
  function Resolve(index: map<int, int>, x: Option<int>): Option<int>
  {
    if x.Some? && x.value in index then Some(index[x.value]) else None
  }

  /** The first `n` entries of `s` resolved in place, the others untouched. */
  function ResolvedUpTo(s: seq<Option<int>>, index: map<int, int>, n: nat): (r: seq<Option<int>>)
    requires n <= |s|
    ensures |r| == |s|
  {
    if n == 0 then s else ResolvedUpTo(s, index, n - 1)[n - 1 := Resolve(index, s[n - 1])]
  }

  function Resolved(s: seq<Option<int>>, index: map<int, int>): seq<Option<int>>
  {
    ResolvedUpTo(s, index, |s|)
  }

  lemma {:induction false} ResolvedUpToAt(s: seq<Option<int>>, index: map<int, int>, n: nat, i: nat)
    requires n <= |s| && i < |s|
    ensures ResolvedUpTo(s, index, n)[i] == if i < n then Resolve(index, s[i]) else s[i]
    decreases n
  {
    if n > 0 {
      ResolvedUpToAt(s, index, n - 1, i);
    }
  }

  /** Every entry is resolved, and the length is kept. */
  lemma ResolvedAt(s: seq<Option<int>>, index: map<int, int>)
    ensures |Resolved(s, index)| == |s|
    ensures forall i :: 0 <= i < |s| ==> Resolved(s, index)[i] == Resolve(index, s[i])
  {
    forall i | 0 <= i < |s|
      ensures Resolved(s, index)[i] == Resolve(index, s[i])
    {
      ResolvedUpToAt(s, index, |s|, i);
    }
  }

  /** The `for (i ...) list.set(i, index.get(list.get(i)))` rewrite. */
  method ResolveInPlace(s: seq<Option<int>>, index: map<int, int>) returns (t: seq<Option<int>>)
    ensures t == Resolved(s, index)
  {
    t := s;
    var i := 0;
    while i < |t|
      invariant |t| == |s| && 0 <= i <= |s|
      invariant t == ResolvedUpTo(s, index, i)
    {
      ResolvedUpToAt(s, index, i, i);
      t := t[i := Resolve(index, t[i])];
      i := i + 1;
    }
  }

  // ---------------------------------------------------------------------------
  // Coexistence: every ordered pair of the merged picks, itself included.

  function CoexRow(a: int, u: seq<Option<int>>, m: nat): (r: seq<Coord>)
    requires m <= |u|
    ensures |r| == m
  {
    if m == 0 then [] else CoexRow(a, u, m - 1) + [Coord(a, Val(u[m - 1]))]
  }

  function CoexUpTo(u: seq<Option<int>>, n: nat): seq<Coord>
    requires n <= |u|
  {
    if n == 0 then [] else CoexUpTo(u, n - 1) + CoexRow(Val(u[n - 1]), u, |u|)
  }

  /** The coexistence list of an already resolved merged list. */
  function Coexistence(u: seq<Option<int>>): seq<Coord>
  {
    CoexUpTo(u, |u|)
  }

  /** The generator throws exactly when it has to read a `null` entry. */
  predicate CoexistenceFails(u: seq<Option<int>>)
  {
    None in u
  }

  method CoexRowLoop(a: int, u: seq<Option<int>>) returns (r: Option<seq<Coord>>)
    ensures r == if None in u then None else Some(CoexRow(a, u, |u|))
  {
    var acc: seq<Coord> := [];
    var col := 0;
    while col < |u|
      invariant 0 <= col <= |u|
      invariant None !in u[..col]
      invariant acc == CoexRow(a, u, col)
    {
      if u[col].None? {
        return None;
      }
      assert u[..col + 1] == u[..col] + [u[col]];
      acc := acc + [Coord(a, u[col].value)];
      col := col + 1;
    }
    assert u[..col] == u;
    return Some(acc);
  }

  /** The nested `row`/`col` loops over the resolved merged list. */
  method CoexistencePairs(u: seq<Option<int>>) returns (r: Option<seq<Coord>>)
    ensures r == if CoexistenceFails(u) then None else Some(Coexistence(u))
  {
    var acc: seq<Coord> := [];
    var row := 0;
    while row < |u|
      invariant 0 <= row <= |u|
      invariant row > 0 ==> None !in u
      invariant acc == CoexUpTo(u, row)
    {
      if u[row].None? {
        return None;
      }
      var line := CoexRowLoop(u[row].value, u);
      if line.None? {
        return None;
      }
      acc := acc + line.value;
      row := row + 1;
    }
    if |u| > 0 {
      return Some(acc);
    }
    assert u == [];
    return Some(acc);
  }

  /**
   * `generateCoexistenceXY`: merges the three rounds into a fresh list,
   * resolves it and emits every ordered pair. The log itself is not changed.
   * Without an index map for the class the first lookup throws, which happens
   * as soon as there is a card at all.
   */
  /**
   * The coexistence list of a log with these fields, `None` where Java
   * throws: a class without an index map throws at the first pick.
   */
  function CoexistenceXY(classCode: int, r1: seq<Option<int>>, r2: seq<Option<int>>, r3: seq<Option<int>>,
                         classIndex: map<int, map<int, int>>): Option<seq<Coord>>
  {
    var merged := r1 + r2 + r3;
    if classCode !in classIndex then
      if |merged| == 0 then Some([]) else None
    else
      var u := Resolved(merged, classIndex[classCode]);
      if CoexistenceFails(u) then None else Some(Coexistence(u))
  }

  /** `generateCoexistenceXY(playerLog)`: reads the log and leaves it as it is. */
  method GenerateCoexistenceXY(log: PlayerLog, classIndex: map<int, map<int, int>>)
    returns (r: Option<seq<Coord>>)
    ensures r == CoexistenceXY(log.classCode, log.round1, log.round2, log.round3, classIndex)
  {
    var merged := log.round1 + log.round2 + log.round3;
    if log.classCode !in classIndex {
      if |merged| == 0 {
        return Some([]);
      }
      return None;
    }
    var u := ResolveInPlace(merged, classIndex[log.classCode]);
    r := CoexistencePairs(u);
  }

  lemma MulStep(n: nat, b: nat)
    requires n > 0
    ensures n * b == (n - 1) * b + b
  {
  }

  lemma {:induction false} CoexUpToLength(u: seq<Option<int>>, n: nat)
    requires n <= |u|
    ensures |CoexUpTo(u, n)| == n * |u|
    decreases n
  {
    if n > 0 {
      CoexUpToLength(u, n - 1);
      MulStep(n, |u|);
    }
  }

  /** A merged list of n picks yields n * n coordinates. */
  lemma CoexistenceLength(u: seq<Option<int>>)
    ensures |Coexistence(u)| == |u| * |u|
  {
    CoexUpToLength(u, |u|);
  }

  /** The number of occurrences of `x` in `s`. */
  function Count<T(==)>(s: seq<T>, x: T): nat
  {
    if |s| == 0 then 0 else Count(s[..|s| - 1], x) + (if s[|s| - 1] == x then 1 else 0)
  }

  lemma {:induction false} CountConcat<T>(a: seq<T>, b: seq<T>, x: T)
    ensures Count(a + b, x) == Count(a, x) + Count(b, x)
    decreases |b|
  {
    if |b| == 0 {
      assert a + b == a;
    } else {
      CountConcat(a, b[..|b| - 1], x);
      assert (a + b)[..|a + b| - 1] == a + b[..|b| - 1];
    }
  }

  lemma {:induction false} CoexRowCount(a: int, u: seq<Option<int>>, m: nat, x: int, y: int)
    requires m <= |u| && None !in u
    ensures Count(CoexRow(a, u, m), Coord(x, y)) == if a == x then Count(u[..m], Some(y)) else 0
    decreases m
  {
    if m > 0 {
      var r := CoexRow(a, u, m - 1);
      CoexRowCount(a, u, m - 1, x, y);
      assert u[m - 1] in u;
      assert u[..m][..m - 1] == u[..m - 1];
      CountConcat(r, [Coord(a, Val(u[m - 1]))], Coord(x, y));
      assert Count([Coord(a, Val(u[m - 1]))], Coord(x, y)) == if Coord(a, Val(u[m - 1])) == Coord(x, y) then 1 else 0 by {
        assert [Coord(a, Val(u[m - 1]))][..0] == [];
      }
    }
  }

  lemma CoexRowCountAll(a: int, u: seq<Option<int>>, x: int, y: int)
    requires None !in u
    ensures Count(CoexRow(a, u, |u|), Coord(x, y)) == if a == x then Count(u, Some(y)) else 0
  {
    CoexRowCount(a, u, |u|, x, y);
    assert u[..|u|] == u;
  }

  lemma {:induction false} CoexUpToCount(u: seq<Option<int>>, n: nat, x: int, y: int)
    requires n <= |u| && None !in u
    ensures Count(CoexUpTo(u, n), Coord(x, y)) == Count(u[..n], Some(x)) * Count(u, Some(y))
    decreases n
  {
    if n > 0 {
      var a, b := CoexUpTo(u, n - 1), CoexRow(Val(u[n - 1]), u, |u|);
      var cnt := Count(u, Some(y));
      var bx := Count(u[..n - 1], Some(x));
      CoexUpToCount(u, n - 1, x, y);
      CoexRowCountAll(Val(u[n - 1]), u, x, y);
      CountConcat(a, b, Coord(x, y));
      assert u[..n][..n - 1] == u[..n - 1];
      assert u[n - 1].Some? by { assert u[n - 1] in u; }
      if u[n - 1] == Some(x) {
        MulStep(bx + 1, cnt);
      }
    }
  }

  /**
   * When every pick is resolved, the pair (x, y) occurs occ(x) * occ(y) times,
   * occ counting the picks of that position in the merged list.
   */
  lemma CoexistenceCount(u: seq<Option<int>>, x: int, y: int)
    requires !CoexistenceFails(u)
    ensures Count(Coexistence(u), Coord(x, y)) == Count(u, Some(x)) * Count(u, Some(y))
  {
    CoexUpToCount(u, |u|, x, y);
    assert u[..|u|] == u;
  }

  // ---------------------------------------------------------------------------
  // Transition: no-card -> round 1, pairs within a round, earlier -> later round.

  /** `(K, round1[i])` for the first `n` picks of round 1, K being the "no card yet" row. */
  function StartUpTo(u: seq<Option<int>>, k: int, n: nat): (r: seq<Coord>)
    requires n <= |u|
    ensures |r| == n
  {
    if n == 0 then [] else StartUpTo(u, k, n - 1) + [Coord(k, Val(u[n - 1]))]
  }

  /**
   * One unordered pair of the same round, oriented by one random bit; the
   * coordinate is followed by the diagonal cell of its row ("for the total").
   */
  function PairCoords(a: int, b: int, bit: bool): seq<Coord>
  {
    if bit then [Coord(a, b), Coord(a, a)] else [Coord(b, a), Coord(b, b)]
  }

  /**
   * Draw number `k` of the random source. The draws are a parameter; a
   * sequence shorter than the draws a log makes reads `false` beyond its end.
   */
  function Bit(bits: seq<bool>, k: nat): bool
  {
    k < |bits| && bits[k]
  }

  /** Pairs `(i, i+1) .. (i, i+m)`; pair `(i, i+t)` uses draw `base + t - 1`. */
  function PairRow(u: seq<Option<int>>, i: nat, bits: seq<bool>, base: nat, m: nat): (r: seq<Coord>)
    requires i + m < |u|
    ensures |r| == 2 * m
  {
    if m == 0 then []
    else PairRow(u, i, bits, base, m - 1) + PairCoords(Val(u[i]), Val(u[i + m]), Bit(bits, base + m - 1))
  }

  /** The number of pairs `(i, j)`, `i < j < n`, whose first index is below `i`. */
  function Offset(n: nat, i: nat): nat
    requires i <= n
  {
    if i == 0 then 0 else Offset(n, i - 1) + (n - i)
  }

  /** Row `i` of a pairs block: the pairs `(i, j)`, `j > i`, reading the draws after those of the earlier rows. */
  function RowAt(u: seq<Option<int>>, bits: seq<bool>, base: nat, i: nat): seq<Coord>
    requires i < |u|
  {
    PairRow(u, i, bits, base + Offset(|u|, i), |u| - i - 1)
  }

  /** The pairs of the first `n` rows of one round. */
  function PairsUpTo(u: seq<Option<int>>, bits: seq<bool>, base: nat, n: nat): seq<Coord>
    requires n <= |u|
  {
    if n == 0 then [] else PairsUpTo(u, bits, base, n - 1) + RowAt(u, bits, base, n - 1)
  }

  /** Each row contributes one coordinate and its diagonal cell per pair. */
  lemma {:induction false} PairsUpToLength(u: seq<Option<int>>, bits: seq<bool>, base: nat, n: nat)
    requires n <= |u|
    ensures |PairsUpTo(u, bits, base, n)| == 2 * Offset(|u|, n)
    decreases n
  {
    if n > 0 {
      PairsUpToLength(u, bits, base, n - 1);
    }
  }

  /** All pairs of one round, reading bits from position `base` on. */
  function Pairs(u: seq<Option<int>>, bits: seq<bool>, base: nat): (r: seq<Coord>)
  {
    PairsUpTo(u, bits, base, |u|)
  }

  function CrossRow(a: int, v: seq<Option<int>>, m: nat): (r: seq<Coord>)
    requires m <= |v|
    ensures |r| == 2 * m
  {
    if m == 0 then [] else CrossRow(a, v, m - 1) + [Coord(a, Val(v[m - 1])), Coord(a, a)]
  }

  /** Every earlier pick `p[old]` followed by every pick `v[i]` of the next round. */
  function CrossUpTo(p: seq<Option<int>>, v: seq<Option<int>>, n: nat): seq<Coord>
    requires n <= |p|
  {
    if n == 0 then [] else CrossUpTo(p, v, n - 1) + CrossRow(Val(p[n - 1]), v, |v|)
  }

  function Cross(p: seq<Option<int>>, v: seq<Option<int>>): seq<Coord>
  {
    CrossUpTo(p, v, |p|)
  }

  /** The random bits one log consumes: one per unordered pair within a round. */
  function BitsNeeded(n1: nat, n2: nat, n3: nat): nat
  {
    Offset(n1, n1) + Offset(n2, n2) + Offset(n3, n3)
  }

  /** The transition list of resolved rounds `u1`, `u2`, `u3`, with `k` the pool size. */
  function Transition(u1: seq<Option<int>>, u2: seq<Option<int>>, u3: seq<Option<int>>, k: int,
                      bits: seq<bool>): seq<Coord>
  {
    StartUpTo(u1, k, |u1|) + TransitionTail(u1, u2, u3, bits)
  }

  /** Everything after the start coordinates: the coordinate/diagonal pairs. */
  function TransitionTail(u1: seq<Option<int>>, u2: seq<Option<int>>, u3: seq<Option<int>>,
                          bits: seq<bool>): seq<Coord>
  {
    var c1, c2 := Offset(|u1|, |u1|), Offset(|u2|, |u2|);
    Pairs(u1, bits, 0) + Cross(u1, u2) + Pairs(u2, bits, c1)
    + Cross(u1 + u2, u3) + Pairs(u3, bits, c1 + c2)
  }

  /** A pairs block reads every entry once the round has two picks. */
  predicate PairsFail(u: seq<Option<int>>) { |u| >= 2 && None in u }

  /** A cross block reads every earlier pick if the next round is non-empty, and vice versa. */
  predicate CrossFails(p: seq<Option<int>>, v: seq<Option<int>>)
  {
    (|v| > 0 && None in p) || (|p| > 0 && None in v)
  }

  predicate TransitionFails(u1: seq<Option<int>>, u2: seq<Option<int>>, u3: seq<Option<int>>)
  {
    None in u1 || CrossFails(u1, u2) || PairsFail(u2) || CrossFails(u1 + u2, u3) || PairsFail(u3)
  }

  method StartLoop(u: seq<Option<int>>, k: int) returns (r: Option<seq<Coord>>)
    ensures r == if None in u then None else Some(StartUpTo(u, k, |u|))
  {
    var acc: seq<Coord> := [];
    var i := 0;
    while i < |u|
      invariant 0 <= i <= |u|
      invariant None !in u[..i]
      invariant acc == StartUpTo(u, k, i)
    {
      if u[i].None? {
        return None;
      }
      assert u[..i + 1] == u[..i] + [u[i]];
      acc := acc + [Coord(k, u[i].value)];
      i := i + 1;
    }
    assert u[..i] == u;
    return Some(acc);
  }

  /** The inner `j` loop of one pairs block: reads `u[i]`, then `u[j]`, then a bit. */
  method PairRowLoop(u: seq<Option<int>>, i: nat, bits: seq<bool>, base: nat) returns (r: Option<seq<Coord>>)
    requires i < |u|
    ensures r.None? <==> (i + 1 < |u| && None in u[i..])
    ensures r.Some? ==> r.value == PairRow(u, i, bits, base, |u| - i - 1)
  {
    var acc: seq<Coord> := [];
    for j := i + 1 to |u|
      invariant j > i + 1 ==> u[i].Some?
      invariant forall k :: i + 1 <= k < j ==> u[k].Some?
      invariant acc == PairRow(u, i, bits, base, j - i - 1)
    {
      if u[i].None? {
        NoneAt(u, i, i);
        return None;
      }
      if u[j].None? {
        NoneAt(u, i, j);
        return None;
      }
      PairRowStep(u, i, bits, base, j);
      acc := acc + PairCoords(u[i].value, u[j].value, Bit(bits, base + j - i - 1));
    }
    if i + 1 < |u| {
      NoneFrom(u, i);
    }
    return Some(acc);
  }

  /** Pair `(i, j)` follows the pairs `(i, i+1) .. (i, j-1)` of its row. */
  lemma PairRowStep(u: seq<Option<int>>, i: nat, bits: seq<bool>, base: nat, j: nat)
    requires i < j < |u|
    ensures PairRow(u, i, bits, base, j + 1 - i - 1)
      == PairRow(u, i, bits, base, j - i - 1) + PairCoords(Val(u[i]), Val(u[j]), Bit(bits, base + j - i - 1))
  {
  }

  lemma NoneAt(u: seq<Option<int>>, i: nat, j: nat)
    requires i <= j < |u| && u[j].None?
    ensures None in u[i..]
  {
    assert u[j] == u[i..][j - i];
  }

  lemma NoneFrom(u: seq<Option<int>>, i: nat)
    requires i <= |u| && forall k :: i <= k < |u| ==> u[k].Some?
    ensures None !in u[i..]
  {
  }

  lemma InSuffix(u: seq<Option<int>>, i: nat)
    requires i <= |u| && None in u[i..]
    ensures None in u
  {
    var t :| 0 <= t < |u[i..]| && u[i..][t] == None;
    assert u[i + t] == None;
  }

  /** One more row extends a pairs block by that row's pairs, read from the draws after the earlier rows'. */
  lemma PairsUpToStep(u: seq<Option<int>>, bits: seq<bool>, base: nat, i: nat)
    requires i < |u|
    ensures PairsUpTo(u, bits, base, i + 1) == PairsUpTo(u, bits, base, i) + RowAt(u, bits, base, i)
  {
  }

  lemma {:induction false} OffsetStep(n: nat, i: nat)
    requires i < n
    ensures Offset(n, i + 1) == Offset(n, i) + (n - i - 1)
  {
  }

  lemma {:induction false} OffsetMono(n: nat, i: nat, j: nat)
    requires i <= j <= n
    ensures Offset(n, i) <= Offset(n, j)
    decreases j
  {
    if i < j {
      OffsetMono(n, i, j - 1);
    }
  }

  /** `Offset(n, n)` is `n choose 2`. */
  lemma {:induction false} OffsetClosed(n: nat, i: nat)
    requires i <= n
    ensures 2 * Offset(n, i) == i * (2 * n - i - 1)
    decreases i
  {
    if i > 0 {
      OffsetClosed(n, i - 1);
      var j := i - 1;
      assert 2 * Offset(n, i) == j * (2 * n - j - 1) + 2 * (n - i);
      assert j * (2 * n - j - 1) == j * (2 * n - i);
      assert i * (2 * n - i - 1) == j * (2 * n - i) + (2 * n - i - 1) - j;
    }
  }

  /** The outer `i` loop of one pairs block. */
  method PairsLoop(u: seq<Option<int>>, bits: seq<bool>, base: nat) returns (r: Option<seq<Coord>>)
    ensures r == if PairsFail(u) then None else Some(Pairs(u, bits, base))
  {
    var acc: seq<Coord> := [];
    for i := 0 to |u|
      invariant i > 0 && |u| >= 2 ==> None !in u
      invariant acc == PairsUpTo(u, bits, base, i)
    {
      var line := PairRowLoop(u, i, bits, base + Offset(|u|, i));
      if line.None? {
        InSuffix(u, i);
        return None;
      }
      PairsUpToStep(u, bits, base, i);
      if i == 0 && |u| >= 2 {
        assert u[0..] == u;
      }
      acc := acc + line.value;
    }
    return Some(acc);
  }

  /** The inner `i` loop of one cross block: reads `p[old]`, then `v[i]`. */
  method CrossRowLoop(x: Option<int>, v: seq<Option<int>>) returns (r: Option<seq<Coord>>)
    ensures r.None? <==> (|v| > 0 && (x.None? || None in v))
    ensures r.Some? ==> r.value == CrossRow(Val(x), v, |v|)
  {
    var acc: seq<Coord> := [];
    var i := 0;
    while i < |v|
      invariant 0 <= i <= |v|
      invariant i > 0 ==> x.Some?
      invariant None !in v[..i]
      invariant acc == CrossRow(Val(x), v, i)
    {
      if x.None? {
        return None;
      }
      if v[i].None? {
        return None;
      }
      assert v[..i + 1] == v[..i] + [v[i]];
      acc := acc + [Coord(x.value, v[i].value), Coord(x.value, x.value)];
      i := i + 1;
    }
    assert v[..i] == v;
    return Some(acc);
  }

  method CrossLoop(p: seq<Option<int>>, v: seq<Option<int>>) returns (r: Option<seq<Coord>>)
    ensures r == if CrossFails(p, v) then None else Some(Cross(p, v))
  {
    var acc: seq<Coord> := [];
    var old_ := 0;
    while old_ < |p|
      invariant 0 <= old_ <= |p|
      invariant |v| > 0 ==> None !in p[..old_]
      invariant old_ > 0 ==> None !in v
      invariant acc == CrossUpTo(p, v, old_)
    {
      var line := CrossRowLoop(p[old_], v);
      if line.None? {
        assert p[old_] in p;
        return None;
      }
      assert p[..old_ + 1] == p[..old_] + [p[old_]];
      acc := acc + line.value;
      old_ := old_ + 1;
    }
    assert p[..old_] == p;
    return Some(acc);
  }

  /**
   * `generateTransitionXY`: rewrites the log's three rounds in place from card
   * ids to pool positions, then emits the start coordinates, the pairs of
   * round 1, round 1 -> round 2, the pairs of round 2, rounds 1-2 -> round 3
   * and the pairs of round 3. `bits` are the successive `nextBoolean()` draws.
   * Without an index map for the class the first lookup throws, before any
   * round is rewritten, as soon as there is a card at all.
   */
  /**
   * The transition list of a log with these fields, `None` where Java throws;
   * `bits` are the successive `nextBoolean()` draws.
   */
  function TransitionXY(classCode: int, r1: seq<Option<int>>, r2: seq<Option<int>>, r3: seq<Option<int>>,
                        classIndex: map<int, map<int, int>>, bits: seq<bool>): Option<seq<Coord>>
  {
    if classCode !in classIndex then
      if |r1| + |r2| + |r3| == 0 then Some([]) else None
    else
      var index := classIndex[classCode];
      var u1, u2, u3 := Resolved(r1, index), Resolved(r2, index), Resolved(r3, index);
      if TransitionFails(u1, u2, u3) then None else Some(Transition(u1, u2, u3, |index|, bits))
  }

  /**
   * `generateTransitionXY(playerLog)`: rewrites the three rounds from card ids
   * to pool positions in place (when the class has an index map), then builds
   * the list from the rewritten rounds.
   */
  method GenerateTransitionXY(log: PlayerLog, classIndex: map<int, map<int, int>>, bits: seq<bool>)
    returns (r: Option<seq<Coord>>)
    modifies log
    ensures log.classCode == old(log.classCode) && log.roundScore == old(log.roundScore)
    ensures log.classCode !in classIndex ==>
      log.round1 == old(log.round1) && log.round2 == old(log.round2) && log.round3 == old(log.round3)
    ensures log.classCode in classIndex ==>
      var index := classIndex[log.classCode];
      log.round1 == Resolved(old(log.round1), index) &&
      log.round2 == Resolved(old(log.round2), index) &&
      log.round3 == Resolved(old(log.round3), index)
    ensures r == TransitionXY(old(log.classCode), old(log.round1), old(log.round2), old(log.round3), classIndex, bits)
  {
    if log.classCode !in classIndex {
      if |log.round1| + |log.round2| + |log.round3| == 0 {
        return Some([]);
      }
      return None;
    }
    var index := classIndex[log.classCode];
    log.round1 := ResolveInPlace(log.round1, index);
    log.round2 := ResolveInPlace(log.round2, index);
    log.round3 := ResolveInPlace(log.round3, index);
    r := BuildTransition(log.round1, log.round2, log.round3, |index|, bits);
  }

  /**
   * The list building of `generateTransitionXY` on rewritten rounds, `k`
   * being the pool size: the start coordinates, then the five blocks in
   * order, stopping at the first entry that is `null`.
   */
  method BuildTransition(u1: seq<Option<int>>, u2: seq<Option<int>>, u3: seq<Option<int>>, k: int, bits: seq<bool>)
    returns (r: Option<seq<Coord>>)
    ensures r == if TransitionFails(u1, u2, u3) then None else Some(Transition(u1, u2, u3, k, bits))
  {
    var c1, c2 := Offset(|u1|, |u1|), Offset(|u2|, |u2|);
    var start := StartLoop(u1, k);
    if start.None? {
      return None;
    }
    var p1 := PairsLoop(u1, bits, 0);
    var x12 := CrossLoop(u1, u2);
    if x12.None? {
      return None;
    }
    var p2 := PairsLoop(u2, bits, c1);
    if p2.None? {
      return None;
    }
    var x3 := CrossLoop(u1 + u2, u3);
    if x3.None? {
      return None;
    }
    var p3 := PairsLoop(u3, bits, c1 + c2);
    if p3.None? {
      return None;
    }
    var tail := p1.value + x12.value + p2.value + x3.value + p3.value;
    assert tail == TransitionTail(u1, u2, u3, bits);
    r := Some(start.value + tail);
  }

  // ---------------------------------------------------------------------------
  // Properties of the transition list.

  lemma {:induction false} CrossUpToLength(p: seq<Option<int>>, v: seq<Option<int>>, n: nat)
    requires n <= |p|
    ensures |CrossUpTo(p, v, n)| == n * (2 * |v|)
    decreases n
  {
    if n > 0 {
      CrossUpToLength(p, v, n - 1);
      MulStep(n, 2 * |v|);
    }
  }

  /**
   * The length is n1 + 2 * (C(n1, 2) + C(n2, 2) + C(n3, 2)) + 2 * n1 * n2
   * + 2 * (n1 + n2) * n3, where 2 * C(n, 2) = n * (n - 1).
   */
  lemma TransitionLength(u1: seq<Option<int>>, u2: seq<Option<int>>, u3: seq<Option<int>>, k: int,
                         bits: seq<bool>)
    ensures var n1, n2, n3 := |u1|, |u2|, |u3|;
      |Transition(u1, u2, u3, k, bits)|
        == n1 + n1 * (n1 - 1) + n2 * (n2 - 1) + n3 * (n3 - 1) + 2 * n1 * n2 + 2 * (n1 + n2) * n3
  {
    var c1, c2 := Offset(|u1|, |u1|), Offset(|u2|, |u2|);
    PairsLength(u1, bits, 0);
    PairsLength(u2, bits, c1);
    PairsLength(u3, bits, c1 + c2);
    CrossLength(u1, u2);
    CrossLength(u1 + u2, u3);
  }

  /** A cross block yields one coordinate and its diagonal cell per (earlier pick, next pick). */
  lemma CrossLength(p: seq<Option<int>>, v: seq<Option<int>>)
    ensures |Cross(p, v)| == 2 * |p| * |v|
  {
    CrossUpToLength(p, v, |p|);
    assert |p| * (2 * |v|) == 2 * |p| * |v|;
  }

  /** A round of `n` picks yields `n * (n - 1)` coordinates: one and its diagonal cell per pair. */
  lemma PairsLength(u: seq<Option<int>>, bits: seq<bool>, base: nat)
    ensures |Pairs(u, bits, base)| == |u| * (|u| - 1)
  {
    PairsUpToLength(u, bits, base, |u|);
    OffsetClosed(|u|, |u|);
    assert 2 * |u| - |u| - 1 == |u| - 1;
  }

  lemma {:induction false} StartUpToAt(u: seq<Option<int>>, k: int, n: nat, i: nat)
    requires i < n <= |u|
    ensures StartUpTo(u, k, n)[i] == Coord(k, Val(u[i]))
    decreases n
  {
    if i < n - 1 {
      StartUpToAt(u, k, n - 1, i);
    }
  }

  /** The first n1 coordinates lead from the "no card yet" row K to each round-1 pick. */
  lemma TransitionStart(u1: seq<Option<int>>, u2: seq<Option<int>>, u3: seq<Option<int>>, k: int,
                        bits: seq<bool>, i: nat)
    requires i < |u1|
    ensures i < |Transition(u1, u2, u3, k, bits)|
    ensures Transition(u1, u2, u3, k, bits)[i] == Coord(k, Val(u1[i]))
  {
    StartUpToAt(u1, k, |u1|, i);
  }

  /** Each coordinate at an even position is followed by the diagonal cell of its row. */
  predicate Paired(t: seq<Coord>)
    decreases |t|
  {
    |t| == 0 || (|t| >= 2 && t[1] == Coord(t[0].row, t[0].row) && Paired(t[2..]))
  }

  lemma {:induction false} PairedConcat(a: seq<Coord>, b: seq<Coord>)
    requires Paired(a) && Paired(b)
    ensures Paired(a + b)
    decreases |a|
  {
    if |a| > 0 {
      PairedConcat(a[2..], b);
      assert (a + b)[0] == a[0] && (a + b)[1] == a[1];
      assert (a + b)[2..] == a[2..] + b;
    } else {
      assert a + b == b;
    }
  }

  lemma {:induction false} PairRowPaired(u: seq<Option<int>>, i: nat, bits: seq<bool>, base: nat, m: nat)
    requires i + m < |u|
    ensures Paired(PairRow(u, i, bits, base, m))
    decreases m
  {
    if m > 0 {
      PairRowPaired(u, i, bits, base, m - 1);
      var c := PairCoords(Val(u[i]), Val(u[i + m]), Bit(bits, base + m - 1));
      assert Paired(c) by { assert c[2..] == []; }
      PairedConcat(PairRow(u, i, bits, base, m - 1), c);
    }
  }

  lemma {:induction false} PairsUpToPaired(u: seq<Option<int>>, bits: seq<bool>, base: nat, n: nat)
    requires n <= |u|
    ensures Paired(PairsUpTo(u, bits, base, n))
    decreases n
  {
    if n > 0 {
      PairsUpToPaired(u, bits, base, n - 1);
      PairRowPaired(u, n - 1, bits, base + Offset(|u|, n - 1), |u| - n);
      PairedConcat(PairsUpTo(u, bits, base, n - 1), RowAt(u, bits, base, n - 1));
    }
  }

  lemma {:induction false} CrossRowPaired(a: int, v: seq<Option<int>>, m: nat)
    requires m <= |v|
    ensures Paired(CrossRow(a, v, m))
    decreases m
  {
    if m > 0 {
      CrossRowPaired(a, v, m - 1);
      var c := [Coord(a, Val(v[m - 1])), Coord(a, a)];
      assert Paired(c) by { assert c[2..] == []; }
      PairedConcat(CrossRow(a, v, m - 1), c);
    }
  }

  lemma {:induction false} CrossUpToPaired(p: seq<Option<int>>, v: seq<Option<int>>, n: nat)
    requires n <= |p|
    ensures Paired(CrossUpTo(p, v, n))
    decreases n
  {
    if n > 0 {
      CrossUpToPaired(p, v, n - 1);
      CrossRowPaired(Val(p[n - 1]), v, |v|);
      PairedConcat(CrossUpTo(p, v, n - 1), CrossRow(Val(p[n - 1]), v, |v|));
    }
  }

  lemma PairedFive(a: seq<Coord>, b: seq<Coord>, c: seq<Coord>, d: seq<Coord>, e: seq<Coord>)
    requires Paired(a) && Paired(b) && Paired(c) && Paired(d) && Paired(e)
    ensures Paired(a + b + c + d + e)
  {
    PairedConcat(a, b);
    PairedConcat(a + b, c);
    PairedConcat(a + b + c, d);
    PairedConcat(a + b + c + d, e);
  }

  /** After the first n1 coordinates, every coordinate (a, b) is followed by (a, a). */
  lemma TransitionPaired(u1: seq<Option<int>>, u2: seq<Option<int>>, u3: seq<Option<int>>, k: int,
                         bits: seq<bool>)
    ensures |u1| <= |Transition(u1, u2, u3, k, bits)|
    ensures Paired(Transition(u1, u2, u3, k, bits)[|u1|..])
  {
    var c1, c2 := Offset(|u1|, |u1|), Offset(|u2|, |u2|);
    var p1, x12, p2 := Pairs(u1, bits, 0), Cross(u1, u2), Pairs(u2, bits, c1);
    var x3, p3 := Cross(u1 + u2, u3), Pairs(u3, bits, c1 + c2);
    PairsUpToPaired(u1, bits, 0, |u1|);
    PairsUpToPaired(u2, bits, c1, |u2|);
    PairsUpToPaired(u3, bits, c1 + c2, |u3|);
    CrossUpToPaired(u1, u2, |u1|);
    CrossUpToPaired(u1 + u2, u3, |u1 + u2|);
    PairedFive(p1, x12, p2, x3, p3);
    var t := Transition(u1, u2, u3, k, bits);
    assert t[|u1|..] == TransitionTail(u1, u2, u3, bits);
  }

  /** The pair `(i, i+d+1)` of a row sits at positions `2d` and `2d + 1` and uses draw `base + d`. */
  lemma {:induction false} PairRowAt(u: seq<Option<int>>, i: nat, bits: seq<bool>, base: nat, m: nat, d: nat)
    requires i + m < |u| && d < m
    ensures PairRow(u, i, bits, base, m)[2 * d] == PairCoords(Val(u[i]), Val(u[i + d + 1]), Bit(bits, base + d))[0]
    ensures PairRow(u, i, bits, base, m)[2 * d + 1] == PairCoords(Val(u[i]), Val(u[i + d + 1]), Bit(bits, base + d))[1]
    decreases m
  {
    if d < m - 1 {
      PairRowAt(u, i, bits, base, m - 1, d);
    }
  }

  lemma {:induction false} PairsPrefix(u: seq<Option<int>>, bits: seq<bool>, base: nat, m: nat, n: nat)
    requires m <= n <= |u|
    ensures PairsUpTo(u, bits, base, m) <= PairsUpTo(u, bits, base, n)
    decreases n
  {
    if m < n {
      PairsPrefix(u, bits, base, m, n - 1);
      PrefixExtend(PairsUpTo(u, bits, base, m), PairsUpTo(u, bits, base, n - 1), RowAt(u, bits, base, n - 1));
    }
  }

  lemma PrefixExtend(a: seq<Coord>, b: seq<Coord>, c: seq<Coord>)
    requires a <= b
    ensures a <= b + c
  {
    assert (b + c)[..|b|] == b;
  }

  /** Row i of a pairs block sits between positions 2 * Offset(i) and 2 * Offset(i + 1). */
  lemma PairsRowSlice(u: seq<Option<int>>, bits: seq<bool>, base: nat, i: nat)
    requires i < |u|
    ensures Offset(|u|, i + 1) == Offset(|u|, i) + (|u| - i - 1)
    ensures 2 * Offset(|u|, i + 1) <= |Pairs(u, bits, base)|
    ensures Pairs(u, bits, base)[2 * Offset(|u|, i)..2 * Offset(|u|, i + 1)] == RowAt(u, bits, base, i)
  {
    OffsetStep(|u|, i);
    PairsPrefix(u, bits, base, i + 1, |u|);
    PairsUpToLength(u, bits, base, i);
    PairsUpToStep(u, bits, base, i);
    SliceOfPrefix(Pairs(u, bits, base), PairsUpTo(u, bits, base, i), RowAt(u, bits, base, i));
  }

  /** A block that starts a sequence is found in it at its own position. */
  lemma SliceOfPrefix(t: seq<Coord>, q: seq<Coord>, row: seq<Coord>)
    requires q + row <= t
    ensures |q| + |row| <= |t| && t[|q|..|q| + |row|] == row
  {
    assert t[..|q| + |row|] == q + row;
    assert t[|q|..|q| + |row|] == (q + row)[|q|..];
  }

  /**
   * Within a round, the pair of picks i < j is the q-th pair, and the q-th
   * random draw alone sets its direction: (u[i], u[j]) when it is true,
   * (u[j], u[i]) otherwise, each followed by the diagonal cell of its row.
   */
  lemma PairDirection(u: seq<Option<int>>, bits: seq<bool>, base: nat, i: nat, j: nat)
    requires i < j < |u|
    ensures var q := Offset(|u|, i) + (j - i - 1);
      var t := Pairs(u, bits, base);
      var a, b := Val(u[i]), Val(u[j]);
      q < Offset(|u|, |u|) && 2 * q + 1 < |t| &&
      t[2 * q] == (if Bit(bits, base + q) then Coord(a, b) else Coord(b, a)) &&
      t[2 * q + 1] == (if Bit(bits, base + q) then Coord(a, a) else Coord(b, b))
  {
    PairsRowSlice(u, bits, base, i);
    OffsetMono(|u|, i + 1, |u|);
    var off, d := Offset(|u|, i), j - i - 1;
    var q := off + d;
    var t, row := Pairs(u, bits, base), RowAt(u, bits, base, i);
    PairRowAt(u, i, bits, base + off, |u| - i - 1, d);
    assert i + d + 1 == j && base + off + d == base + q;
    PairInSlice(t, 2 * off, 2 * Offset(|u|, i + 1), row, d, Val(u[i]), Val(u[j]), Bit(bits, base + q));
    assert 2 * off + 2 * d == 2 * q;
  }

  /** A pair found in a slice is found in the sequence at the shifted positions. */
  lemma PairInSlice(t: seq<Coord>, lo: nat, hi: nat, row: seq<Coord>, d: nat, a: int, b: int, bit: bool)
    requires lo <= hi <= |t| && t[lo..hi] == row && 2 * d + 1 < |row|
    requires row[2 * d] == PairCoords(a, b, bit)[0] && row[2 * d + 1] == PairCoords(a, b, bit)[1]
    ensures lo + 2 * d + 1 < |t|
    ensures t[lo + 2 * d] == (if bit then Coord(a, b) else Coord(b, a))
    ensures t[lo + 2 * d + 1] == (if bit then Coord(a, a) else Coord(b, b))
  {
    assert t[lo + 2 * d] == row[2 * d] && t[lo + 2 * d + 1] == row[2 * d + 1];
  }
}
