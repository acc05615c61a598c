/**
 * The card-to-position index every pool manager builds with
 * `for (i = 0; i < pool.size(); i++) index.put(pool.get(i), i)`: when a card
 * occurs twice, the later position overwrites the earlier one.
 */
module CardIndex {

  function LastIndexMap(pool: seq<int>): map<int, int>
    decreases |pool|
  {
    if pool == [] then map[]
    else LastIndexMap(pool[..|pool| - 1])[pool[|pool| - 1] := |pool| - 1]
  }

  predicate Distinct(s: seq<int>) { forall i, j :: 0 <= i < j < |s| ==> s[i] != s[j] }

  /** Every card of the pool is a key, and it maps to the last position holding it. */
  lemma {:induction false} LastIndexMapSpec(pool: seq<int>)
    ensures forall c :: c in LastIndexMap(pool) <==> c in pool
    ensures forall c :: c in LastIndexMap(pool) ==>
      var k := LastIndexMap(pool)[c];
      0 <= k < |pool| && pool[k] == c && forall j :: k < j < |pool| ==> pool[j] != c
    decreases |pool|
  {
    if pool != [] {
      var init := pool[..|pool| - 1];
      LastIndexMapSpec(init);
      assert pool == init + [pool[|pool| - 1]];
    }
  }

  /** With distinct cards the index inverts the pool, and it has one key per card. */
  lemma {:induction false} DistinctIndex(pool: seq<int>)
    requires Distinct(pool)
    ensures forall i :: 0 <= i < |pool| ==> pool[i] in LastIndexMap(pool) && LastIndexMap(pool)[pool[i]] == i
    ensures |LastIndexMap(pool)| == |pool|
    decreases |pool|
  {
    if pool != [] {
      var init := pool[..|pool| - 1];
      assert Distinct(init);
      DistinctIndex(init);
      LastIndexMapSpec(init);
      assert pool[|pool| - 1] !in init;
      assert pool[|pool| - 1] !in LastIndexMap(init);
    }
  }

  method BuildIndex(pool: seq<int>) returns (m: map<int, int>)
    ensures m == LastIndexMap(pool)
  {
    m := map[];
    var i := 0;
    while i < |pool|
      invariant 0 <= i <= |pool|
      invariant m == LastIndexMap(pool[..i])
    {
      assert pool[..i + 1][..i] == pool[..i];
      m := m[pool[i] := i];
      i := i + 1;
    }
    assert pool[..|pool|] == pool;
  }
}
