/**
 * The first version of the collector (GamerHintService.insertData): for
 * every class one document `patch/batch/class` maps a deck id to a vector
 * of K+1 counters, K being the size of the card pool. The deck "NO_CARD"
 * counts the first-round picks; the deck of the sorted first two rounds
 * counts the second-round picks, and the deck of all three rounds the
 * third-round picks. The last slot of every vector counts the players that
 * reached that deck.
 *
 * The method is one transaction and saves only at its end, so an exception
 * anywhere (a card with no index, an index outside its vector, a player with
 * no card in the first two rounds) saves nothing.
 */
module LegacyHint {
  import opened Wrappers
  import opened Text
  import opened Sorting
  import MatrixDocs

  /** One `InsertDataRequestDto`: a player's class and the cards of the three rounds. */
  datatype Draft = Draft(classCode: int, round1: seq<int>, round2: seq<int>, round3: seq<int>)

  /** `InsertDataListRequestDto`. */
  datatype InsertRequest = InsertRequest(patchVersion: string, list: seq<Draft>)

  /** Deck id to counters. */
  type Decks = map<string, seq<int>>

  /** `GamerHintDocument1`. */
  datatype HintDoc = HintDoc(id: string, cardPool: seq<int>, decks: Decks)

  const NoCard: string := "NO_CARD"

  // ------------------------------------------------------------------ deck ids

  function Rendered(s: seq<int>): (r: seq<string>)
    ensures |r| == |s| && forall i :: 0 <= i < |s| ==> r[i] == IntToString(s[i])
  {
    if |s| == 0 then [] else Rendered(s[..|s| - 1]) + [IntToString(s[|s| - 1])]
  }

  /**
   * The deck id built with a `StringBuilder`: the sorted cards joined with
   * `/`. With no card, `get(size() - 1)` throws: `None`.
   */
  function DeckId(cards: seq<int>): Option<string>
  {
    if |cards| == 0 then None else Some(Join(Rendered(SortInts(cards)), '/'))
  }

  /** The `StringBuilder` loop: every part but the last followed by `/`. */
  function Slashed(parts: seq<string>): string
  {
    if |parts| == 0 then "" else Slashed(parts[..|parts| - 1]) + parts[|parts| - 1] + "/"
  }

  lemma {:induction false} SlashedCons(a: string, rest: seq<string>)
    ensures Slashed([a] + rest) == a + "/" + Slashed(rest)
    decreases |rest|
  {
    if |rest| > 0 {
      var init := rest[..|rest| - 1];
      SlashedCons(a, init);
      assert ([a] + rest)[..|rest|] == [a] + init;
    }
  }

  /** What the builder holds after the loop and the last part is `String.join`. */
  lemma {:induction false} SlashedJoin(parts: seq<string>)
    requires |parts| >= 1
    ensures Slashed(parts[..|parts| - 1]) + parts[|parts| - 1] == Join(parts, '/')
    decreases |parts|
  {
    if |parts| > 1 {
      var rest := parts[1..];
      SlashedJoin(rest);
      assert parts[..|parts| - 1] == [parts[0]] + rest[..|rest| - 1];
      SlashedCons(parts[0], rest[..|rest| - 1]);
    }
  }

  /** The `StringBuilder` loop that builds a deck id from the cards of some rounds. */
  method BuildDeckId(cards: seq<int>) returns (id: Option<string>)
    ensures id == DeckId(cards)
  {
    if |cards| == 0 {
      return None;
    }
    var sorted := SortInts(cards);
    var parts := Rendered(sorted);
    var sb := "";
    var i := 0;
    while i < |sorted| - 1
      invariant 0 <= i <= |sorted| - 1
      invariant sb == Slashed(parts[..i])
    {
      assert parts[..i + 1][..i] == parts[..i];
      sb := sb + IntToString(sorted[i]) + "/";
      i := i + 1;
    }
    SlashedJoin(parts);
    return Some(sb + IntToString(sorted[|sorted| - 1]));
  }

  lemma RenderedNoSlash(s: seq<int>)
    ensures forall i :: 0 <= i < |Rendered(s)| ==> '/' !in Rendered(s)[i]
  {
    forall i | 0 <= i < |s| ensures '/' !in Rendered(s)[i] {
      IntToStringPlain(s[i]);
    }
  }

  lemma RenderedInjective(a: seq<int>, b: seq<int>)
    requires Rendered(a) == Rendered(b)
    ensures a == b
  {
    forall i | 0 <= i < |a| ensures a[i] == b[i] {
      assert Rendered(a)[i] == Rendered(b)[i];
      IntToStringInjective(a[i], b[i]);
    }
  }

  /**
   * Two non-empty card lists get the same deck id exactly when they hold the
   * same cards the same number of times: the id forgets the pick order and
   * nothing else.
   */
  lemma DeckIdSameCards(a: seq<int>, b: seq<int>)
    requires |a| > 0 && |b| > 0
    ensures DeckId(a) == DeckId(b) <==> multiset(a) == multiset(b)
  {
    SortIntsAscending(a);
    SortIntsAscending(b);
    if multiset(a) == multiset(b) {
      SortIntsOrderFree(a, b);
    }
    if DeckId(a) == DeckId(b) {
      var pa, pb := Rendered(SortInts(a)), Rendered(SortInts(b));
      RenderedNoSlash(SortInts(a));
      RenderedNoSlash(SortInts(b));
      FieldsOfJoin(pa, '/');
      FieldsOfJoin(pb, '/');
      RenderedInjective(SortInts(a), SortInts(b));
    }
  }

  /** A deck id starts with a digit or a minus sign, so it is never the "NO_CARD" key. */
  lemma DeckIdNotNoCard(cards: seq<int>)
    ensures DeckId(cards).Some? <==> |cards| > 0
    ensures DeckId(cards).Some? ==> DeckId(cards).value != NoCard
  {
    if |cards| == 0 {
      return;
    }
    var parts := Rendered(SortInts(cards));
    var p0 := IntToString(SortInts(cards)[0]);
    assert parts[0] == p0;
    var n := SortInts(cards)[0];
    ParseNatToString(if n < 0 then -n else n);
    assert p0[0] == '-' || IsDigit(p0[0]);
    assert Join(parts, '/')[0] == p0[0];
  }

  // ------------------------------------------------------------------ counting

  /** How many of `cards` the index sends to slot `i`. */
  function Hits(cards: seq<int>, index: map<int, int>, i: int): nat
  {
    if |cards| == 0 then 0
    else
      var c := cards[|cards| - 1];
      Hits(cards[..|cards| - 1], index, i) + (if c in index && index[c] == i then 1 else 0)
  }

  /** Every card has an index inside a vector of `n` slots. */
  predicate Indexed(cards: seq<int>, index: map<int, int>, n: nat)
  {
    forall t :: 0 <= t < |cards| ==> cards[t] in index && 0 <= index[cards[t]] < n
  }

  /**
   * `v.set(idx, v.get(idx) + 1)` for each card in turn; `None` when a card
   * has no index (unboxing `null`) or its index lies outside the vector.
   */
  function CountCards(v: seq<int>, cards: seq<int>, index: map<int, int>): Option<seq<int>>
  {
    if |cards| == 0 then Some(v)
    else
      var p := CountCards(v, cards[..|cards| - 1], index);
      var c := cards[|cards| - 1];
      if p.None? || c !in index || !(0 <= index[c] < |p.value|) then None
      else Some(p.value[index[c] := p.value[index[c]] + 1])
  }

  /** Counting succeeds exactly when every card is indexed inside the vector; slot `i` then gains its hits. */
  lemma {:induction false} CountCardsSpec(v: seq<int>, cards: seq<int>, index: map<int, int>)
    ensures CountCards(v, cards, index).Some? <==> Indexed(cards, index, |v|)
    ensures CountCards(v, cards, index).Some? ==>
      var r := CountCards(v, cards, index).value;
      |r| == |v| && forall i :: 0 <= i < |v| ==> r[i] == v[i] + Hits(cards, index, i)
    decreases |cards|
  {
    if |cards| > 0 {
      var init := cards[..|cards| - 1];
      CountCardsSpec(v, init, index);
      assert forall t :: 0 <= t < |init| ==> init[t] == cards[t];
    }
  }

  /**
   * One deck's counters: created with K+1 zeros the first time the deck
   * appears, each card counted, then slot K raised by one for the player.
   */
  function Tally(decks: Decks, key: string, cards: seq<int>, index: map<int, int>, k: nat): Option<Decks>
  {
    var v := if key in decks then decks[key] else MatrixDocs.Zeros(k + 1);
    var c := CountCards(v, cards, index);
    if c.None? || k >= |c.value| then None
    else Some(decks[key := c.value[k := c.value[k] + 1]])
  }

  /**
   * A successful tally changes the one deck: each card slot gains its hits,
   * slot K gains one more; a new deck starts from K+1 zeros. Other decks are
   * unchanged.
   */
  lemma TallySpec(decks: Decks, key: string, cards: seq<int>, index: map<int, int>, k: nat)
    requires Tally(decks, key, cards, index, k).Some?
    ensures var r := Tally(decks, key, cards, index, k).value;
      var v := if key in decks then decks[key] else MatrixDocs.Zeros(k + 1);
      r.Keys == decks.Keys + {key} &&
      (forall other :: other in decks && other != key ==> r[other] == decks[other]) &&
      |r[key]| == |v| && k < |v| &&
      (forall i :: 0 <= i < |v| ==> r[key][i] == v[i] + Hits(cards, index, i) + (if i == k then 1 else 0))
  {
    var v := if key in decks then decks[key] else MatrixDocs.Zeros(k + 1);
    CountCardsSpec(v, cards, index);
  }

  /**
   * One of the three blocks of the player loop: the deck it counts into
   * ("NO_CARD" when `deck` is `None`, else the deck of those cards) and the
   * round's cards.
   */
  datatype Step = Step(deck: Option<seq<int>>, cards: seq<int>)

  function StepKey(s: Step): Option<string>
  {
    if s.deck.None? then Some(NoCard) else DeckId(s.deck.value)
  }

  /** The three decks one player touches, in the order of the source. */
  function Steps(d: Draft): (r: seq<Step>)
    ensures |r| == 3
  {
    [Step(None, d.round1), Step(Some(d.round1 + d.round2), d.round2), Step(Some(d.round1 + d.round2 + d.round3), d.round3)]
  }

  /** The blocks in turn; `None` once one throws (a deck id of no card, or a failed count). */
  function TallyAll(decks: Decks, steps: seq<Step>, index: map<int, int>, k: nat): Option<Decks>
    decreases |steps|
  {
    if |steps| == 0 then Some(decks)
    else
      var key := StepKey(steps[0]);
      if key.None? then None
      else
        var a := Tally(decks, key.value, steps[0].cards, index, k);
        if a.None? then None else TallyAll(a.value, steps[1..], index, k)
  }

  function PlayerDecks(decks: Decks, d: Draft, index: map<int, int>, k: nat): Option<Decks>
  {
    TallyAll(decks, Steps(d), index, k)
  }

  /** A deck none of the remaining blocks counts into is left as it was. */
  lemma {:induction false} TallyAllOthers(decks: Decks, steps: seq<Step>, index: map<int, int>, k: nat, key: string)
    requires TallyAll(decks, steps, index, k).Some?
    requires forall t :: 0 <= t < |steps| ==> StepKey(steps[t]) != Some(key)
    ensures var r := TallyAll(decks, steps, index, k).value;
      (key in r <==> key in decks) && (key in decks ==> r[key] == decks[key])
    decreases |steps|
  {
    if |steps| > 0 {
      var a := Tally(decks, StepKey(steps[0]).value, steps[0].cards, index, k);
      TallySpec(decks, StepKey(steps[0]).value, steps[0].cards, index, k);
      assert StepKey(steps[0]) != Some(key);
      assert forall t :: 0 <= t < |steps[1..]| ==> steps[1..][t] == steps[t + 1];
      TallyAllOthers(a.value, steps[1..], index, k, key);
    }
  }

  /**
   * After one player the "NO_CARD" counters hold the first-round picks and
   * one more player in slot K, the two deck ids being different keys.
   */
  lemma PlayerNoCard(decks: Decks, d: Draft, index: map<int, int>, k: nat)
    requires PlayerDecks(decks, d, index, k).Some?
    ensures var r := PlayerDecks(decks, d, index, k).value;
      var v := if NoCard in decks then decks[NoCard] else MatrixDocs.Zeros(k + 1);
      NoCard in r && |r[NoCard]| == |v| && k < |v| &&
      forall i :: 0 <= i < |v| ==> r[NoCard][i] == v[i] + Hits(d.round1, index, i) + (if i == k then 1 else 0)
  {
    var steps := Steps(d);
    var a := Tally(decks, NoCard, d.round1, index, k);
    assert a.Some?;
    TallySpec(decks, NoCard, d.round1, index, k);
    DeckIdNotNoCard(d.round1 + d.round2);
    DeckIdNotNoCard(d.round1 + d.round2 + d.round3);
    TallyAllOthers(a.value, steps[1..], index, k, NoCard);
  }

  /** A player with no card in the first two rounds makes the whole request fail. */
  lemma EmptyEarlyRoundsFail(decks: Decks, d: Draft, index: map<int, int>, k: nat)
    requires |d.round1| == 0 && |d.round2| == 0
    ensures PlayerDecks(decks, d, index, k).None?
  {
    assert d.round1 + d.round2 == [];
    var a := Tally(decks, NoCard, d.round1, index, k);
    if a.Some? {
      assert TallyAll(a.value, Steps(d)[1..], index, k) == None;
    }
  }

  // --------------------------------------------------------------- the request

  function ClassId(prefix: string, classCode: int): string
  {
    prefix + "/" + IntToString(classCode)
  }

  /** The class loop: each class's stored decks, or an empty map, under `patch/batch/class`. */
  function LoadedUpTo(store: map<string, HintDoc>, prefix: string, classPool: seq<int>, n: nat): map<string, Decks>
    requires n <= |classPool|
  {
    if n == 0 then map[]
    else
      var rm := LoadedUpTo(store, prefix, classPool, n - 1);
      var id := ClassId(prefix, classPool[n - 1]);
      if id in rm then rm else rm[id := if id in store then store[id].decks else map[]]
  }

  /** One player: its class map, created empty when absent, after its three decks. */
  function ClassStep(m: map<string, Decks>, prefix: string, d: Draft, index: map<int, int>, k: nat)
    : (r: Option<map<string, Decks>>)
    ensures r.Some? ==> r.value.Keys == m.Keys + {ClassId(prefix, d.classCode)}
  {
    var id := ClassId(prefix, d.classCode);
    var r := PlayerDecks(if id in m then m[id] else map[], d, index, k);
    if r.None? then None else Some(m[id := r.value])
  }

  /** The player loop over the first `n` drafts; `None` once one of them throws. */
  function PlayersUpTo(rm: map<string, Decks>, prefix: string, list: seq<Draft>, index: map<int, int>, k: nat,
                       n: nat): Option<map<string, Decks>>
    requires n <= |list|
  {
    if n == 0 then Some(rm)
    else
      var p := PlayersUpTo(rm, prefix, list, index, k, n - 1);
      if p.None? then None else ClassStep(p.value, prefix, list[n - 1], index, k)
  }

  /** Every class map of the request saved as a document; the other documents stay. */
  function SaveAll(store: map<string, HintDoc>, rm: map<string, Decks>, cardPool: seq<int>): map<string, HintDoc>
  {
    map id | id in store.Keys + rm.Keys :: if id in rm then HintDoc(id, cardPool, rm[id]) else store[id]
  }

  /** Saving one more class map is one more `save`. */
  lemma SaveAllStep(store: map<string, HintDoc>, saved: map<string, Decks>, cardPool: seq<int>, id: string, v: Decks)
    ensures SaveAll(store, saved, cardPool)[id := HintDoc(id, cardPool, v)] == SaveAll(store, saved[id := v], cardPool)
  {
  }

  /** The store after `insertData`, or `None` when it throws and saves nothing. */
  function InsertLegacy(store: map<string, HintDoc>, dto: InsertRequest, batch: int, cardPool: seq<int>,
                        index: map<int, int>, classPool: seq<int>): Option<map<string, HintDoc>>
  {
    var prefix := dto.patchVersion + "/" + IntToString(batch);
    var rm := PlayersUpTo(LoadedUpTo(store, prefix, classPool, |classPool|), prefix, dto.list, index,
                          |cardPool|, |dto.list|);
    if rm.None? then None else Some(SaveAll(store, rm.value, cardPool))
  }

  lemma ClassIdPrefix(prefix: string, c: int)
    ensures HasPrefix(ClassId(prefix, c), prefix + "/")
  {
    assert ClassId(prefix, c)[..|prefix + "/"|] == prefix + "/";
  }

  /** Exactly one map per class of the pool, holding the stored decks or none. */
  lemma {:induction false} LoadedSpec(store: map<string, HintDoc>, prefix: string, classPool: seq<int>, n: nat)
    requires n <= |classPool|
    ensures var rm := LoadedUpTo(store, prefix, classPool, n);
      (forall j :: 0 <= j < n ==> ClassId(prefix, classPool[j]) in rm) &&
      (forall id :: id in rm ==> HasPrefix(id, prefix + "/")) &&
      (forall id :: id in rm ==> rm[id] == if id in store then store[id].decks else map[])
    decreases n
  {
    if n > 0 {
      LoadedSpec(store, prefix, classPool, n - 1);
      ClassIdPrefix(prefix, classPool[n - 1]);
    }
  }

  /**
   * The keys of `r` after the first `n` players from the class maps `rm`:
   * every map it started with, one for the class of each of those players,
   * and no other.
   */
  predicate KeysAfter(rm: map<string, Decks>, prefix: string, list: seq<Draft>, n: nat, r: map<string, Decks>)
    requires n <= |list|
  {
    rm.Keys <= r.Keys &&
    (forall j :: 0 <= j < n ==> ClassId(prefix, list[j].classCode) in r) &&
    (forall id :: id in r ==> id in rm || HasPrefix(id, prefix + "/"))
  }

  lemma KeysAfterStep(rm: map<string, Decks>, prefix: string, list: seq<Draft>, n: nat, p: map<string, Decks>,
                      r: map<string, Decks>)
    requires n < |list| && KeysAfter(rm, prefix, list, n, p)
    requires r.Keys == p.Keys + {ClassId(prefix, list[n].classCode)}
    ensures KeysAfter(rm, prefix, list, n + 1, r)
  {
    ClassIdPrefix(prefix, list[n].classCode);
  }

  /**
   * The player loop keeps every class map it started with, adds one for the
   * class of each player, and no other.
   */
  lemma {:induction false} PlayersKeys(rm: map<string, Decks>, prefix: string, list: seq<Draft>,
                                       index: map<int, int>, k: nat, n: nat)
    requires n <= |list|
    requires PlayersUpTo(rm, prefix, list, index, k, n).Some?
    ensures var r := PlayersUpTo(rm, prefix, list, index, k, n).value;
      rm.Keys <= r.Keys &&
      (forall j :: 0 <= j < n ==> ClassId(prefix, list[j].classCode) in r) &&
      (forall id :: id in r ==> id in rm || HasPrefix(id, prefix + "/"))
    decreases n
  {
    var r := PlayersUpTo(rm, prefix, list, index, k, n).value;
    if n > 0 {
      PlayersKeys(rm, prefix, list, index, k, n - 1);
      var p := PlayersUpTo(rm, prefix, list, index, k, n - 1).value;
      assert KeysAfter(rm, prefix, list, n - 1, p);
      KeysAfterStep(rm, prefix, list, n - 1, p, r);
    }
    assert KeysAfter(rm, prefix, list, n, r);
  }

  /**
   * A successful request stores every class of the pool and of the request
   * under its id with the card pool, and leaves every document outside the
   * `patch/batch/` prefix unchanged.
   */
  lemma InsertLegacySpec(store: map<string, HintDoc>, dto: InsertRequest, batch: int, cardPool: seq<int>,
                         index: map<int, int>, classPool: seq<int>)
    ensures var r := InsertLegacy(store, dto, batch, cardPool, index, classPool);
      var prefix := dto.patchVersion + "/" + IntToString(batch);
      r.Some? ==>
        store.Keys <= r.value.Keys &&
        (forall j :: 0 <= j < |classPool| ==>
          ClassId(prefix, classPool[j]) in r.value && r.value[ClassId(prefix, classPool[j])].cardPool == cardPool) &&
        (forall j :: 0 <= j < |dto.list| ==> ClassId(prefix, dto.list[j].classCode) in r.value) &&
        (forall id :: id in store && !HasPrefix(id, prefix + "/") ==> r.value[id] == store[id])
  {
    var prefix := dto.patchVersion + "/" + IntToString(batch);
    var loaded := LoadedUpTo(store, prefix, classPool, |classPool|);
    var rm := PlayersUpTo(loaded, prefix, dto.list, index, |cardPool|, |dto.list|);
    if rm.Some? {
      LoadedSpec(store, prefix, classPool, |classPool|);
      PlayersKeys(loaded, prefix, dto.list, index, |cardPool|, |dto.list|);
    }
  }

  // ------------------------------------------------------------------- methods

  /** The `temp.add(0)` loop: K+1 zeros. */
  method NewCounts(k: nat) returns (v: seq<int>)
    ensures v == MatrixDocs.Zeros(k + 1)
  {
    v := [];
    var i := 0;
    while i < k + 1
      invariant 0 <= i <= k + 1 && v == MatrixDocs.Zeros(i)
    {
      v := v + [0];
      i := i + 1;
    }
  }

  /** The per-round card loop: one `set` per card. */
  method CountLoop(v: seq<int>, cards: seq<int>, index: map<int, int>) returns (r: seq<int>, ok: bool)
    ensures ok == CountCards(v, cards, index).Some?
    ensures ok ==> r == CountCards(v, cards, index).value
  {
    r := v;
    var i := 0;
    while i < |cards|
      invariant 0 <= i <= |cards|
      invariant CountCards(v, cards[..i], index) == Some(r)
    {
      assert cards[..i + 1][..i] == cards[..i];
      var cardId := cards[i];
      if cardId !in index || !(0 <= index[cardId] < |r|) {
        CountCardsStops(v, cards, index, i + 1);
        return r, false;
      }
      var cardIndex := index[cardId];
      r := r[cardIndex := r[cardIndex] + 1];
      i := i + 1;
    }
    assert cards[..i] == cards;
    ok := true;
  }

  lemma {:induction false} CountCardsStops(v: seq<int>, cards: seq<int>, index: map<int, int>, n: nat)
    requires n <= |cards| && CountCards(v, cards[..n], index).None?
    ensures CountCards(v, cards, index).None?
    decreases |cards|
  {
    if |cards| > n {
      assert cards[..|cards| - 1][..n] == cards[..n];
      CountCardsStops(v, cards[..|cards| - 1], index, n);
    } else {
      assert cards[..n] == cards;
    }
  }

  /** One deck: create it if absent, count the round's cards, then the player in slot K. */
  method TallyDeck(decks: Decks, key: string, cards: seq<int>, index: map<int, int>, k: nat)
    returns (r: Option<Decks>)
    ensures r == Tally(decks, key, cards, index, k)
  {
    var classMap := decks;
    if key !in classMap {
      var temp := NewCounts(k);
      classMap := classMap[key := temp];
    }
    var counted, ok := CountLoop(classMap[key], cards, index);
    if !ok || k >= |counted| {
      return None;
    }
    var oldTotalValue := counted[k];
    return Some(decks[key := counted[k := oldTotalValue + 1]]);
  }

  method ProcessDraft(decks: Decks, d: Draft, index: map<int, int>, k: nat) returns (r: Option<Decks>)
    ensures r == PlayerDecks(decks, d, index, k)
  {
    ghost var steps := Steps(d);
    assert steps[1..][0] == Step(Some(d.round1 + d.round2), d.round2);
    assert steps[1..][1..][0] == Step(Some(d.round1 + d.round2 + d.round3), d.round3);
    assert steps[1..][1..][1..] == [];
    var a := TallyDeck(decks, NoCard, d.round1, index, k);
    if a.None? {
      return None;
    }
    var deckId2 := BuildDeckId(d.round1 + d.round2);
    if deckId2.None? {
      assert TallyAll(a.value, steps[1..], index, k) == None;
      return None;
    }
    var b := TallyDeck(a.value, deckId2.value, d.round2, index, k);
    if b.None? {
      assert TallyAll(a.value, steps[1..], index, k) == None;
      return None;
    }
    assert TallyAll(a.value, steps[1..], index, k) == TallyAll(b.value, steps[1..][1..], index, k);
    DeckIdNotNoCard(d.round1 + d.round2);
    DeckIdNotNoCard(d.round1 + d.round2 + d.round3);
    var deckId3 := BuildDeckId(d.round1 + d.round2 + d.round3);
    r := TallyDeck(b.value, deckId3.value, d.round3, index, k);
    assert TallyAll(b.value, steps[1..][1..], index, k) == if r.None? then None else TallyAll(r.value, [], index, k);
  }

  /** The collection the documents live in, keyed by id. */
  class HintRepository {
    var docs: map<string, HintDoc>

    constructor(docs: map<string, HintDoc>)
      ensures this.docs == docs
    {
      this.docs := docs;
    }

    method FindById(id: string) returns (d: Option<HintDoc>)
      ensures d == if id in docs then Some(docs[id]) else None
    {
      return if id in docs then Some(docs[id]) else None;
    }

    method Save(d: HintDoc)
      modifies this
      ensures docs == old(docs)[d.id := d]
    {
      docs := docs[d.id := d];
    }

    /**
     * `insertData`: the card pool, its index, the class pool and the batch
     * number are the ones the pool and batch managers hold. `ok` is false
     * when the request throws, and then nothing is saved.
     */
    method InsertData(dto: InsertRequest, batch: int, cardPool: seq<int>, index: map<int, int>, classPool: seq<int>)
      returns (ok: bool)
      modifies this
      ensures ok == InsertLegacy(old(docs), dto, batch, cardPool, index, classPool).Some?
      ensures docs == if ok then InsertLegacy(old(docs), dto, batch, cardPool, index, classPool).value else old(docs)
    {
      var documentId := dto.patchVersion + "/" + IntToString(batch);
      var resultMap := LoadClasses(documentId, classPool);
      var updated := RunPlayers(resultMap, documentId, dto.list, index, |cardPool|);
      if updated.None? {
        return false;
      }
      SaveEach(updated.value, cardPool);
      return true;
    }

    /** The class loop: one `findById` per class of the pool. */
    method LoadClasses(documentId: string, classPool: seq<int>) returns (resultMap: map<string, Decks>)
      ensures resultMap == LoadedUpTo(docs, documentId, classPool, |classPool|)
    {
      resultMap := map[];
      var i := 0;
      while i < |classPool|
        invariant 0 <= i <= |classPool|
        invariant resultMap == LoadedUpTo(docs, documentId, classPool, i)
      {
        var finalDocumentId := ClassId(documentId, classPool[i]);
        var classMap := FindById(finalDocumentId);
        if finalDocumentId !in resultMap {
          resultMap := resultMap[finalDocumentId := if classMap.Some? then classMap.value.decks else map[]];
        }
        i := i + 1;
      }
    }

    /** The final loop: one `save` per class map. */
    method SaveEach(rm: map<string, Decks>, cardPool: seq<int>)
      modifies this
      ensures docs == SaveAll(old(docs), rm, cardPool)
    {
      var pending := rm.Keys;
      ghost var saved: map<string, Decks> := map[];
      while pending != {}
        invariant pending <= rm.Keys && saved.Keys == rm.Keys - pending
        invariant forall id :: id in saved ==> saved[id] == rm[id]
        invariant docs == SaveAll(old(docs), saved, cardPool)
        decreases pending
      {
        var classMapId :| classMapId in pending;
        SaveAllStep(old(docs), saved, cardPool, classMapId, rm[classMapId]);
        Save(HintDoc(classMapId, cardPool, rm[classMapId]));
        saved := saved[classMapId := rm[classMapId]];
        pending := pending - {classMapId};
      }
      assert saved == rm;
    }
  }

  /**
   * One turn of the player loop over player `n`: its class map, created
   * empty when absent, after its three decks. When the player throws, the
   * whole loop does.
   */
  method PlayerStep(rm: map<string, Decks>, documentId: string, list: seq<Draft>, index: map<int, int>, k: nat,
                    n: nat, resultMap: map<string, Decks>)
    returns (r: Option<map<string, Decks>>)
    requires n < |list| && PlayersUpTo(rm, documentId, list, index, k, n) == Some(resultMap)
    ensures r == PlayersUpTo(rm, documentId, list, index, k, n + 1)
    ensures r.None? ==> PlayersUpTo(rm, documentId, list, index, k, |list|).None?
  {
    var data := list[n];
    var dataDocumentId := ClassId(documentId, data.classCode);
    var classMap := if dataDocumentId in resultMap then resultMap[dataDocumentId] else map[];
    var updated := ProcessDraft(classMap, data, index, k);
    if updated.None? {
      PlayersStop(rm, documentId, list, index, k, n + 1, |list|);
      return None;
    }
    return Some(resultMap[dataDocumentId := updated.value]);
  }

  /** The player loop; `None` when a player throws. */
  method RunPlayers(rm: map<string, Decks>, documentId: string, list: seq<Draft>, index: map<int, int>, k: nat)
    returns (r: Option<map<string, Decks>>)
    ensures r == PlayersUpTo(rm, documentId, list, index, k, |list|)
  {
    var resultMap := rm;
    for n := 0 to |list|
      invariant PlayersUpTo(rm, documentId, list, index, k, n) == Some(resultMap)
    {
      var updated := PlayerStep(rm, documentId, list, index, k, n, resultMap);
      if updated.None? {
        return None;
      }
      resultMap := updated.value;
    }
    return Some(resultMap);
  }

  /** Once a player has thrown, the player loop stays failed. */
  lemma {:induction false} PlayersStop(rm: map<string, Decks>, prefix: string, list: seq<Draft>, index: map<int, int>,
                                       k: nat, n: nat, m: nat)
    requires n <= m <= |list| && PlayersUpTo(rm, prefix, list, index, k, n).None?
    ensures PlayersUpTo(rm, prefix, list, index, k, m).None?
    decreases m
  {
    if m > n {
      PlayersStop(rm, prefix, list, index, k, n, m - 1);
      PlayersNone(rm, prefix, list, index, k, m);
    }
  }

  lemma PlayersNone(rm: map<string, Decks>, prefix: string, list: seq<Draft>, index: map<int, int>, k: nat, m: nat)
    requires 0 < m <= |list| && PlayersUpTo(rm, prefix, list, index, k, m - 1).None?
    ensures PlayersUpTo(rm, prefix, list, index, k, m).None?
  {
  }
}
