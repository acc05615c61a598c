# Smash-up back end, modelled in Dafny

This project models the logic of a card-drafting game's back end and proves properties of that model.

- **The `indicator` draft-statistics engine (Java).**
  - Matrix documents keyed `patch/batch/type/class`, holding a frequency matrix with K+1 rows of K cells per context key `map/players`.
  - Their generation, and the coordinates that one player's three draft rounds produce.
  - The update of the pick and win documents, and the `@Version` counter of optimistic locking that every save advances.
  - The patch-version state machine, the pool gate and the batch counter, and the hourly rotation that clones batch N-1 into batch N.
  - The pool manager's sorted pools and inverse index maps, and the card-pool, batch-count and ready-made caches.
  - The class and card rebalance aggregations: pick and win counts read from matrix diagonals, rates, and the two-key sort.
  - The synergy mean and percentile rank of `cardOpen`.
  - The legacy deck-id ingestion.
- **The matching server (C++).**
  - Room and membership tables as a status machine: TERMINATED, WAITING, in progress.
  - Games.
  - The room, game and auth services' validation order and replies.
  - The session-token table, and per-session routing with its authentication gate, handshake classification, ping and auto-exit.
- **The game socket server (C++).**
  - `Content-Length` framing of requests and responses, and per-session routing.
  - The session-expiry pool with one sweep of its cleanup thread.
  - The database connection pool's slot allocation.
  - Lowercase hex rendering of a password digest.
- **The API gateway's request router (C++).**
- **The logging service's `sendLog` (Kotlin).** It batches `gameEnd` events into one `{"data":[...]}` payload.

How the model is built:
- Stores and SQL tables are Dafny sequences and maps. An object the source updates in place is a class with `modifies` clauses, and each such method is proved equal to a specification function.
- A Java or C++ exception is an `Option`/`Result` outcome. Where a loop throws part-way, the partial state it leaves is kept.
- Outside inputs are parameters:
  - the random direction bits of `generateTransitionXY`;
  - SHA-256 and UUID generation;
  - clock readings and whether a database call fails;
  - whether a connection is still open.
- Integer rates are exact `(up, down)` pairs.
- Java's `Double.compare` order is kept on an exact rate type with `NaN` and the infinities.

## Model

| member | source | states |
|---|---|---|
| Text.ParseNatToString | indicator/src/main/java/com/smashup/indicator/module/gamerhint/service/impl/GamerHintMatrixSubService.java:125 | a non-negative number renders as decimal digits only, and reading those digits back gives the number |
| Text.ParseIntToString | indicator/src/main/java/com/smashup/indicator/module/masterhint/service/impl/MasterHintMatrixService.java:81-82 | `Integer.parseInt` recovers every integer from its `toString` rendering, the class code read back from a document id |
| Text.IntToStringPlain | indicator/src/main/java/com/smashup/indicator/module/gamerhint/service/impl/GamerHintMatrixSubService.java:125 | a rendered integer never contains `/` or `.`, so it is a single field of a document id or patch version |
| Text.IntToStringInjective | indicator/src/main/java/com/smashup/indicator/module/gamerhint/service/impl/GamerHintMatrixSubService.java:125 | distinct integers render to distinct strings |
| Text.FieldsOfJoin | indicator/src/main/java/com/smashup/indicator/module/gamerhint/service/impl/GamerHintMatrixSubService.java:125 | splitting a `/`-joined id on `/` gives back the separator-free fields it was joined from |
| Text.SplitOfJoin | indicator/src/main/java/com/smashup/indicator/module/masterhint/service/impl/MasterHintMatrixService.java:81 | Java's `split`, which drops trailing empty fields, returns the joined fields when the last one is non-empty |
| Text.SlashPrefix | indicator/src/main/java/com/smashup/indicator/module/gamerhint/service/impl/GamerHintMatrixSubService.java:30-31 | when a `/`-terminated field prefixes another such string, the first fields are equal; this makes the batch-prefix query select by whole fields |
| Sorting.SortBySorted | indicator/src/main/java/com/smashup/indicator/module/masterhint/service/impl/MasterHintMatrixCardService.java:83-86 | the stable insertion sort under a total preorder returns an ordered permutation of its input |
| Sorting.SortIntsAscending | indicator/src/main/java/com/smashup/indicator/module/version/PoolManager.java:34-36 | `Collections.sort` on an integer list returns an ascending permutation of it |
| Sorting.AscendingUnique | indicator/src/main/java/com/smashup/indicator/module/version/PoolManager.java:34-36 | two ascending lists with the same elements are equal, so the sorted pool is determined by its multiset |
| Sorting.SortIntsOrderFree | indicator/src/main/java/com/smashup/indicator/module/version/PoolManager.java:34-36 | the sorted pool does not depend on the order in which the request listed its elements |
| Rates.JavaDiv | indicator/src/main/java/com/smashup/indicator/module/masterhint/service/impl/MasterHintMatrixService.java:153 | Java integer division by a positive divisor truncates toward zero: quotient bounds for both signs of the dividend |
| Rates.Quotient | indicator/src/main/java/com/smashup/indicator/module/masterhint/service/impl/MasterHintMatrixService.java:100 | `(double) up / down` is finite exactly when `down != 0`, and then it times `down` is `up`; it is NaN exactly for `0/0` |
| Rates.CompareOrder | indicator/src/main/java/com/smashup/indicator/module/masterhint/service/impl/MasterHintMatrixCardService.java:83-84 | `Double.compare` is a total order on rates: equality, antisymmetry and transitivity |
| Rates.SetWinWhenPick | indicator/src/main/java/com/smashup/indicator/module/masterhint/service/impl/MasterHintMatrixService.java:60-64 | the loop sets every result's `winWhenPick` to its win count over its pick count and leaves the results' number unchanged |
| CardIndex.LastIndexMapSpec | indicator/src/main/java/com/smashup/indicator/module/version/PoolManager.java:60-63 | the index map has exactly the pool's cards as keys, and each maps to the last position that holds it |
| CardIndex.DistinctIndex | indicator/src/main/java/com/smashup/indicator/module/version/PoolManager.java:60-63 | for a pool with no card twice, the index map inverts the pool and has one key per card |
| CardIndex.BuildIndex | indicator/src/main/java/com/smashup/indicator/module/version/CardPoolManager.java:24-27 | the index loop builds exactly the last-position map of the pool |
| Pools.ClassTablesOk | indicator/src/main/java/com/smashup/indicator/module/version/PoolManager.java:53-65 | the class loop completes exactly when every class of the class pool has a card pool in the request |
| Pools.ClassTablesStops | indicator/src/main/java/com/smashup/indicator/module/version/PoolManager.java:55-56 | once a class without a card pool has thrown, the tables stay as the loop left them |
| Pools.ClassTablesKeys | indicator/src/main/java/com/smashup/indicator/module/version/PoolManager.java:53-65 | only classes of the class pool get tables, every one of them does when the loop completes, and the two tables have the same keys |
| Pools.ClassTablesEntries | indicator/src/main/java/com/smashup/indicator/module/version/PoolManager.java:55-64 | every registered class holds its card pool sorted and the index map of that sorted pool |
| Pools.DistinctPermutation | indicator/src/main/java/com/smashup/indicator/module/version/PoolManager.java:55-56 | sorting a card pool with no card twice keeps that property |
| Pools.SortedPoolIndex | indicator/src/main/java/com/smashup/indicator/module/version/PoolManager.java:55-64 | a sorted card pool is an ascending permutation whose index map locates each of its cards, at its own position when the cards are distinct |
| Pools.WildcardPool | indicator/src/main/java/com/smashup/indicator/module/version/PoolManager.java:29-36 | the sorted map and player-number pools hold the wildcard -1 and are the sort of the request's pool with -1 added |
| Pools.SortPool | indicator/src/main/java/com/smashup/indicator/module/version/PoolManager.java:34-36 | `Collections.sort` leaves a pool ascending with the same elements |
| Pools.PoolManager.constructor | indicator/src/main/java/com/smashup/indicator/module/version/PoolManager.java:11-18 | the patch version starts as "not yet set" and every pool and map starts empty |
| Pools.PoolManager.UpdatePoolPost | indicator/src/main/java/com/smashup/indicator/module/version/PoolManager.java:20-66 | the patch version, pools and maps are replaced from the request: pools sorted, -1 added to the map and player-number pools, and the class tables are what the class loop builds, including a partial build when a class has no card pool |
| Pools.BuildClassTables | indicator/src/main/java/com/smashup/indicator/module/version/PoolManager.java:53-65 | the class loop fills the card-pool and index tables class by class and reports whether it threw |
| Pools.RegisterOne | indicator/src/main/java/com/smashup/indicator/module/version/PoolManager.java:53-64 | one class of the loop: its card pool is stored sorted with that pool's index map, and a class without a pool throws and ends the loop |
| Pools.CardPoolManager.constructor | indicator/src/main/java/com/smashup/indicator/module/version/CardPoolManager.java:10-11 | the single card pool and its index start empty |
| Pools.CardPoolManager.UpdateCardPoolPost | indicator/src/main/java/com/smashup/indicator/module/version/CardPoolManager.java:13-28 | the pool becomes the sorted request and the index its last-position map |
| Pools.CardPoolManager.UpdateCardPoolGet | indicator/src/main/java/com/smashup/indicator/module/version/CardPoolManager.java:29-43 | with the reload commented out, both the pool and the index end empty |
| Pools.BatchCountManager.constructor | indicator/src/main/java/com/smashup/indicator/module/version/BatchCountManager.java:8 | the batch count starts at 1 |
| Pools.BatchCountManager.ResetBatchCount | indicator/src/main/java/com/smashup/indicator/module/version/BatchCountManager.java:10-12 | the batch count goes back to 1 |
| Pools.BatchCountManager.PlusBatchCount | indicator/src/main/java/com/smashup/indicator/module/version/BatchCountManager.java:14-16 | the batch count goes up by one and stays at least 1 |
| Pools.BatchCountManager.IncrementBatchCount | indicator/src/main/java/com/smashup/indicator/module/version/BatchCountManager.java:18-21 | the scheduled increment raises the batch count by one |
| Pools.BatchCountManager.GetBatchCount | indicator/src/main/java/com/smashup/indicator/module/version/BatchCountManager.java:23-25 | the batch count read is the current one, and it is at least 1 |
| Pools.ReadyMadeManager.constructor | indicator/src/main/java/com/smashup/indicator/module/version/ReadyMadeManager.java:18 | the cached indicator starts empty |
| Pools.ReadyMadeManager.UpdateGetIndicator | indicator/src/main/java/com/smashup/indicator/module/version/ReadyMadeManager.java:21-30 | the cache is cleared and refilled with the new documents; a null list throws after the clear, leaving it empty |
| Pools.ReadyMadeManager.GetGetIndicator | indicator/src/main/java/com/smashup/indicator/module/version/ReadyMadeManager.java:33-35 | the cache is returned as it is |
| ClassRebalance.CalculateCount | indicator/src/main/java/com/smashup/indicator/module/masterhint/service/impl/MasterHintMatrixService.java:140-155 | the count of a document is its "-1/-1" matrix's first row-0-length diagonal cells summed and divided by nine; a missing matrix, an empty matrix or a short row throws |
| ClassRebalance.CountSkipsLastRow | indicator/src/main/java/com/smashup/indicator/module/masterhint/service/impl/MasterHintMatrixService.java:146-151 | the last row of a `(K+1) x K` matrix, the "no card yet" row, never enters the count |
| ClassRebalance.DiagonalBump | indicator/src/main/java/com/smashup/indicator/module/masterhint/service/impl/MasterHintMatrixService.java:148-150 | one matrix increment moves the diagonal sum by one exactly when it hits a counted diagonal cell |
| ClassRebalance.AssignUps | indicator/src/main/java/com/smashup/indicator/module/masterhint/service/impl/MasterHintMatrixService.java:87-93 | every result whose id matches the class code gets the count as its numerator, the others are unchanged; with `boxed` the ids match as the program's boxed `!=` lets them (equal and inside the `Integer` cache), otherwise by value |
| ClassRebalance.AssignDowns | indicator/src/main/java/com/smashup/indicator/module/masterhint/service/impl/MasterHintMatrixService.java:97-102 | every result's denominator becomes the total and its rate the numerator over that total |
| ClassRebalance.ScanDoc | indicator/src/main/java/com/smashup/indicator/module/masterhint/service/impl/MasterHintMatrixService.java:75-95 | one document of the loop: a T document is skipped, a C document sets its class's numerator (by the comparison `boxed` selects) and adds to the total, and an unreadable class or count throws |
| ClassRebalance.SetCountsLoop | indicator/src/main/java/com/smashup/indicator/module/masterhint/service/impl/MasterHintMatrixService.java:72-103 | `setPick`/`setWin` compute the document loop followed by the denominator loop, or throw; `boxed` selects the id comparison as written or by value |
| ClassRebalance.GenerateRebalanceClass | indicator/src/main/java/com/smashup/indicator/module/masterhint/service/impl/MasterHintMatrixService.java:32-68 | one zeroed result per class in pool order, then picks, wins and win-when-picked are computed from the live batch; with `boxed` this is the program as written, otherwise with ids compared by value |
| ClassRebalance.ScanStops | indicator/src/main/java/com/smashup/indicator/module/masterhint/service/impl/MasterHintMatrixService.java:72-95 | after an exception the later documents change nothing |
| ClassRebalance.ScanFails | indicator/src/main/java/com/smashup/indicator/module/masterhint/service/impl/MasterHintMatrixService.java:75-95 | the document loop throws exactly when some C document of the batch has an unreadable class code or count |
| ClassRebalance.ScanTotal | indicator/src/main/java/com/smashup/indicator/module/masterhint/service/impl/MasterHintMatrixService.java:85 | without an exception the results keep their number and the total is the sum of every C document's count |
| ClassRebalance.ScanResultAt | indicator/src/main/java/com/smashup/indicator/module/masterhint/service/impl/MasterHintMatrixService.java:87-93 | without an exception each result ends with the count of the last C document of its class, or keeps its figure when there is none |
| ClassRebalance.RebalanceClassFails | indicator/src/main/java/com/smashup/indicator/module/masterhint/service/impl/MasterHintMatrixService.java:53-57 | the service fails exactly when an unreadable C document is in the live batch of either collection |
| ClassRebalance.RebalanceClassAt | indicator/src/main/java/com/smashup/indicator/module/masterhint/service/impl/MasterHintMatrixService.java:32-68 | otherwise there is one result per class in pool order, and each class's pick and win figures are the count of its last document whose id matches (by the comparison `boxed` selects) over the shared total, with win-when-picked being wins over picks |
| ClassRebalance.BoxedIdFinding | indicator/src/main/java/com/smashup/indicator/module/masterhint/service/impl/MasterHintMatrixService.java:89 | the reference comparison of boxed ids leaves class 200's pick count at zero where the value comparison sets it to one |
| CardRebalance.ReadCells | indicator/src/main/java/com/smashup/indicator/module/masterhint/service/impl/MasterHintMatrixCardService.java:118-124 | the card loop reads each card's diagonal cell through the class index, in order, or throws at the first card it cannot read |
| CardRebalance.CellsStop | indicator/src/main/java/com/smashup/indicator/module/masterhint/service/impl/MasterHintMatrixCardService.java:118-124 | a card that cannot be read makes the whole card loop throw |
| CardRebalance.SumCells | indicator/src/main/java/com/smashup/indicator/module/masterhint/service/impl/MasterHintMatrixCardService.java:123 | the running total is the sum of the cells |
| CardRebalance.ApplyDoc | indicator/src/main/java/com/smashup/indicator/module/masterhint/service/impl/MasterHintMatrixCardService.java:102-137 | the body of `setPick`/`setWin` for one document: T documents and other classes are skipped, a document of the class sets the figures or throws |
| CardRebalance.AssignPicks | indicator/src/main/java/com/smashup/indicator/module/masterhint/service/impl/MasterHintMatrixCardService.java:118-135 | each card's pick numerator becomes its cell, and every card shares a ninth of the cells' sum as the denominator |
| CardRebalance.AssignWins | indicator/src/main/java/com/smashup/indicator/module/masterhint/service/impl/MasterHintMatrixCardService.java:167-178 | each card's win numerator becomes its cell, and its denominator is the card's pick count |
| CardRebalance.CardScanStops | indicator/src/main/java/com/smashup/indicator/module/masterhint/service/impl/MasterHintMatrixCardService.java:102-137 | after an exception the later documents change nothing |
| CardRebalance.SetCards | indicator/src/main/java/com/smashup/indicator/module/masterhint/service/impl/MasterHintMatrixCardService.java:92-181 | `setPick`/`setWin` run the document loop over the live batch |
| CardRebalance.SortCards | indicator/src/main/java/com/smashup/indicator/module/masterhint/service/impl/MasterHintMatrixCardService.java:86 | `results.sort` yields the stable insertion sort of the results under the two-key comparator |
| CardRebalance.GenerateRebalanceCard | indicator/src/main/java/com/smashup/indicator/module/masterhint/service/impl/MasterHintMatrixCardService.java:34-88 | one zeroed, named result per card of the class pool, then picks, wins, win-when-picked and the sort |
| CardRebalance.CardBeforeTotal | indicator/src/main/java/com/smashup/indicator/module/masterhint/service/impl/MasterHintMatrixCardService.java:83-86 | the comparator, win-when-picked descending then pick rate descending, is a total preorder |
| CardRebalance.RebalanceCardSorted | indicator/src/main/java/com/smashup/indicator/module/masterhint/service/impl/MasterHintMatrixCardService.java:78-87 | the result is a permutation of the unsorted results, ordered by win-when-picked descending and, among equal ones, by pick rate descending |
| CardRebalance.CellsSpec | indicator/src/main/java/com/smashup/indicator/module/masterhint/service/impl/MasterHintMatrixCardService.java:119-122 | the cell list exists exactly when every card's cell can be read, and its entries are those cells |
| CardRebalance.CellsDependOnIds | indicator/src/main/java/com/smashup/indicator/module/masterhint/service/impl/MasterHintMatrixCardService.java:118-122 | setting figures keeps every result's card id |
| CardRebalance.Overwrites | indicator/src/main/java/com/smashup/indicator/module/masterhint/service/impl/MasterHintMatrixCardService.java:102-137 | a later document of the class overwrites every figure an earlier one set |
| CardRebalance.StepFails | indicator/src/main/java/com/smashup/indicator/module/masterhint/service/impl/MasterHintMatrixCardService.java:104-124 | one more document throws exactly when it is a C document with a short id or one of the class with an unreadable cell |
| CardRebalance.StepEffect | indicator/src/main/java/com/smashup/indicator/module/masterhint/service/impl/MasterHintMatrixCardService.java:102-137 | a readable document of the class replaces the effect of the previous one, and other documents change nothing |
| CardRebalance.CardScanFails | indicator/src/main/java/com/smashup/indicator/module/masterhint/service/impl/MasterHintMatrixCardService.java:102-137 | the document loop throws exactly when one of the documents is unreadable |
| CardRebalance.CardScanLast | indicator/src/main/java/com/smashup/indicator/module/masterhint/service/impl/MasterHintMatrixCardService.java:102-137 | without an exception the results are what the last C document of the class alone leaves in them |
| CardRebalance.LastOfClassFound | indicator/src/main/java/com/smashup/indicator/module/masterhint/service/impl/MasterHintMatrixCardService.java:104-111 | the last document of the class is one of the batch's C documents of that class |
| CardRebalance.LastReadable | indicator/src/main/java/com/smashup/indicator/module/masterhint/service/impl/MasterHintMatrixCardService.java:116-124 | without an unreadable document the last document of the class yields every card's cell |
| CardRebalance.EffectPickAt | indicator/src/main/java/com/smashup/indicator/module/masterhint/service/impl/MasterHintMatrixCardService.java:118-135 | the pick document of the class sets card `i`'s numerator to its cell, the denominator to a ninth of all cells and the rate to their quotient, and nothing else |
| CardRebalance.EffectWinAt | indicator/src/main/java/com/smashup/indicator/module/masterhint/service/impl/MasterHintMatrixCardService.java:167-178 | the win document of the class sets card `i`'s win to its cell over its pick count, and nothing else |
| CardRebalance.UnsortedFails | indicator/src/main/java/com/smashup/indicator/module/masterhint/service/impl/MasterHintMatrixCardService.java:40-75 | the service fails exactly when the class has no card pool or an unreadable document is in either live batch |
| CardRebalance.UnsortedStages | indicator/src/main/java/com/smashup/indicator/module/masterhint/service/impl/MasterHintMatrixCardService.java:73-82 | the two loops equal the effects of the last pick and last win documents of the class, followed by win-when-picked |
| CardRebalance.UnsortedAt | indicator/src/main/java/com/smashup/indicator/module/masterhint/service/impl/MasterHintMatrixCardService.java:43-82 | result `i` is card `i` of the pool with its name; its pick cell over a ninth of all pick cells, its win cell over its pick cell, zero figures without a document, and wins over picks |
| MatrixDocs.IdsAreJoins | indicator/src/main/java/com/smashup/indicator/module/gamerhint/service/impl/GamerHintMatrixSubService.java:125 | a document id is the `/`-join of version, batch, type and class, and a batch prefix the join of version, batch and an empty field |
| MatrixDocs.SkeletonShape | indicator/src/main/java/com/smashup/indicator/module/gamerhint/service/impl/GamerHintMatrixSubService.java:178-189 | the skeleton has K+1 rows of K zeros, and it is the only matrix of that shape |
| MatrixDocs.GenerateSkeletonMatrix | indicator/src/main/java/com/smashup/indicator/module/gamerhint/service/impl/GamerHintMatrixSubService.java:178-189 | for a class with a card pool of K cards the result is the K+1 by K zero matrix; a class without one throws |
| MatrixDocs.GenerateMatrixId | indicator/src/main/java/com/smashup/indicator/module/gamerhint/service/impl/GamerHintMatrixSubService.java:194-205 | the ids are every (map, player count) pair of the two pools, map-major |
| MatrixDocs.MapIds | indicator/src/main/java/com/smashup/indicator/module/gamerhint/service/impl/GamerHintMatrixSubService.java:198-201 | the inner loop renders one map with each player count in pool order |
| MatrixDocs.MatrixIdInjective | indicator/src/main/java/com/smashup/indicator/module/gamerhint/service/impl/GamerHintMatrixSubService.java:199 | distinct (map, player count) pairs render to distinct matrix ids |
| MatrixDocs.IdsUpToLength | indicator/src/main/java/com/smashup/indicator/module/gamerhint/service/impl/GamerHintMatrixSubService.java:197-202 | the first `n` maps give `n` times the player pool's size ids |
| MatrixDocs.MatrixIdsSpec | indicator/src/main/java/com/smashup/indicator/module/gamerhint/service/impl/GamerHintMatrixSubService.java:194-205 | there are |maps| * |players| ids, and an id is generated exactly for a pair drawn from the two pools |
| MatrixDocs.GameMatrixIds | indicator/src/main/java/com/smashup/indicator/module/gamerhint/service/impl/GamerHintMatrixService.java:123-126 | the four matrices one game updates: its map and player count, each alone or as the wildcard -1, in that order |
| MatrixDocs.SkeletonMapSpec | indicator/src/main/java/com/smashup/indicator/module/gamerhint/service/impl/GamerHintMatrixSubService.java:133-135 | a new document's matrix map has exactly the matrix ids as keys, each holding the skeleton |
| MatrixDocs.AllKnownSpec | indicator/src/main/java/com/smashup/indicator/module/gamerhint/service/impl/GamerHintMatrixSubService.java:121 | the recursive check that classes have card pools agrees with the quantified one |
| MatrixDocs.ClassDocsPair | indicator/src/main/java/com/smashup/indicator/module/gamerhint/service/impl/GamerHintMatrixSubService.java:122-138 | one class yields its C document then its T document |
| MatrixDocs.BuildMatrixMap | indicator/src/main/java/com/smashup/indicator/module/gamerhint/service/impl/GamerHintMatrixSubService.java:133-135 | one skeleton is put per matrix id; a class without a card pool throws unless there is no id |
| MatrixDocs.BuildClassDocs | indicator/src/main/java/com/smashup/indicator/module/gamerhint/service/impl/GamerHintMatrixSubService.java:122-138 | the inner loop over the two types builds the class's C and T documents, or throws |
| MatrixDocs.BuildDocuments | indicator/src/main/java/com/smashup/indicator/module/gamerhint/service/impl/GamerHintMatrixSubService.java:112-142 | the shared loop of document generation builds the fresh documents of every class exactly when the needed card pools exist |
| MatrixDocs.BuildAllClassDocs | indicator/src/main/java/com/smashup/indicator/module/gamerhint/service/impl/GamerHintMatrixSubService.java:121-139 | the outer loop over the class pool builds the class documents in order, or throws |
| MatrixDocs.GenerateDocument | indicator/src/main/java/com/smashup/indicator/module/gamerhint/service/impl/GamerHintMatrixSubService.java:112-142 | `generateDocument`: the fresh pick documents, which carry their batch number, or an exception for a class without a card pool |
| MatrixDocs.GenerateWinDocument | indicator/src/main/java/com/smashup/indicator/module/gamerhint/service/impl/GamerHintMatrixSubService.java:146-175 | `generateWinDocument`: the same documents without a batch field |
| MatrixDocs.DocsUpToAt | indicator/src/main/java/com/smashup/indicator/module/gamerhint/service/impl/GamerHintMatrixSubService.java:121-139 | documents `2k` and `2k+1` are the C and T documents of class `k` |
| MatrixDocs.FreshDocsAt | indicator/src/main/java/com/smashup/indicator/module/gamerhint/service/impl/GamerHintMatrixSubService.java:121-139 | there are two documents per class, C then T, in class order |
| MatrixDocs.NewDocFields | indicator/src/main/java/com/smashup/indicator/module/gamerhint/service/impl/GamerHintMatrixSubService.java:124-135 | each fresh document has the batch id, the requested type and batch field, the class's card pool, and one skeleton per matrix id |
| MatrixDocs.ByPrefix | indicator/src/main/java/com/smashup/indicator/module/gamerhint/service/impl/GamerHintMatrixSubService.java:29-32 | the anchored-prefix query returns exactly the stored documents whose id starts with the prefix, in store order |
| MatrixDocs.BatchPrefixSelects | indicator/src/main/java/com/smashup/indicator/module/gamerhint/service/impl/GamerHintMatrixSubService.java:30-31 | with `/`-free versions, the batch query selects a document exactly when its version and batch fields are the ones asked for |
| MatrixDocs.HaveDocumentFinding | indicator/src/main/java/com/smashup/indicator/module/gamerhint/service/impl/GamerHintMatrixSubService.java:62 | the prefix test as written reports version "1" present when only version "12" has documents |
| MatrixDocs.VersionPrefixExact | indicator/src/main/java/com/smashup/indicator/module/gamerhint/service/impl/GamerHintMatrixSubService.java:62 | the corrected test, prefix `version + "/"`, matches a document exactly when its version field is the version asked for |
| MatrixDocs.MaxBatch | indicator/src/main/java/com/smashup/indicator/module/gamerhint/service/impl/GamerHintMatrixSubService.java:81-84 | the largest batch field among the documents, present exactly when some document has one, and attained by one of them |
| MatrixDocs.LatestBatchCountSpec | indicator/src/main/java/com/smashup/indicator/module/gamerhint/service/impl/GamerHintMatrixSubService.java:75-93 | with no matching document the read throws; otherwise the result is the largest batch field among matching documents, or null when none has one |
| MatrixDocs.ClassSegmentOfDocId | indicator/src/main/java/com/smashup/indicator/module/gamerhint/service/impl/GamerHintMatrixService.java:136 | splitting a document id on `/` gives its four fields, and field 3 is the class |
| MatrixDocs.DocIdInjective | indicator/src/main/java/com/smashup/indicator/module/gamerhint/service/impl/GamerHintMatrixSubService.java:125 | two ids of one version and batch are equal only when their types and classes are |
| MatrixDocs.FreshDocsUnique | indicator/src/main/java/com/smashup/indicator/module/gamerhint/service/impl/GamerHintMatrixSubService.java:121-139 | with no class twice in the pool, the fresh documents have distinct ids |
| MatrixDocs.FindIdUpTo | indicator/src/main/java/com/smashup/indicator/module/gamerhint/service/impl/GamerHintMatrixService.java:177 | the position found is the first document with the id |
| MatrixDocs.FreshDocsNew | indicator/src/main/java/com/smashup/indicator/module/gamerhint/service/impl/GamerHintMatrixSubService.java:121-139 | every generated document is new: its `@Version` is null |
| MatrixDocs.SaveSpec | indicator/src/main/java/com/smashup/indicator/module/gamerhint/domain/entity/WinMatrixDocument.java:26-27 | a save of a document with a null `@Version` inserts it with version 0 and succeeds iff its id is not stored; a save of version v succeeds iff the first stored document with its id has version v, and replaces it in place with version v+1; other documents keep their places and nothing else enters |
| MatrixDocs.SaveKeepsUnique | indicator/src/main/java/com/smashup/indicator/module/gamerhint/service/impl/GamerHintMatrixService.java:176-181 | a successful save keeps ids unique |
| MatrixDocs.SaveUpToStops | indicator/src/main/java/com/smashup/indicator/module/gamerhint/service/impl/GamerHintMatrixService.java:176-181 | once a save has thrown, later documents are not saved |
| MatrixDocs.SaveEach | indicator/src/main/java/com/smashup/indicator/module/gamerhint/service/impl/GamerHintMatrixService.java:176-181 | the save loop saves the documents in order and stops at the first save that throws, as the loop function says |
| MatrixDocs.SaveUpToKeeps | indicator/src/main/java/com/smashup/indicator/module/gamerhint/service/impl/GamerHintMatrixService.java:176-181 | the save loop leaves every document whose id none of the saved ones carries in its place, and adds only saved documents with their advanced versions |
| MatrixDocs.SaveUpToContains | indicator/src/main/java/com/smashup/indicator/module/gamerhint/service/impl/GamerHintMatrixService.java:176-181 | when the loop completes on documents with distinct ids, every one of them is stored with its advanced version |
| MatrixDocs.ByPrefixUnique | indicator/src/main/java/com/smashup/indicator/module/gamerhint/service/impl/GamerHintMatrixSubService.java:29-32 | a query of a collection with distinct ids returns documents with distinct ids |
| MatrixDocs.SaveBack | indicator/src/main/java/com/smashup/indicator/module/gamerhint/service/impl/GamerHintMatrixService.java:176-181 | saving back documents with distinct ids, each read from the store with its current version, completes: every save is an update, the ids stay in place and every document is stored with version one higher |
| MatrixDocs.SaveBackNext | indicator/src/main/java/com/smashup/indicator/module/gamerhint/service/impl/GamerHintMatrixService.java:176-181 | one more document read from the store is saved back as an update |
| MatrixDocs.SaveBackStep | indicator/src/main/java/com/smashup/indicator/module/gamerhint/service/impl/GamerHintMatrixService.java:177 | the save of a document read from the store succeeds as an in-place update after earlier saves of other ids |
| MatrixDocs.SaveUpdates | indicator/src/main/java/com/smashup/indicator/module/gamerhint/service/impl/GamerHintMatrixService.java:177 | with distinct ids, saving a document whose version matches the stored one replaces it at its position with the next version |
| MatrixCoords.PlayerLog.constructor | indicator/src/main/java/com/smashup/indicator/module/gamerhint/service/impl/GamerHintMatrixSubService.java:208 | a player log holds its class code, round scores and three rounds of picks as given |
| MatrixCoords.ResolvedUpToAt | indicator/src/main/java/com/smashup/indicator/module/gamerhint/service/impl/GamerHintMatrixSubService.java:226-230 | after `n` steps of the rewrite loop the first `n` entries are resolved through the index and the rest are untouched |
| MatrixCoords.ResolvedAt | indicator/src/main/java/com/smashup/indicator/module/gamerhint/service/impl/GamerHintMatrixSubService.java:325-329 | the rewritten list keeps its length and each entry is the card's index, or null for an unknown card |
| MatrixCoords.ResolveInPlace | indicator/src/main/java/com/smashup/indicator/module/gamerhint/service/impl/GamerHintMatrixSubService.java:226-240 | the `list.set(i, index.get(list.get(i)))` loop resolves every entry |
| MatrixCoords.CoexRowLoop | indicator/src/main/java/com/smashup/indicator/module/gamerhint/service/impl/GamerHintMatrixSubService.java:332-334 | one row of the coexistence loop pairs the row's pick with every pick in order, and throws on a null entry |
| MatrixCoords.CoexistencePairs | indicator/src/main/java/com/smashup/indicator/module/gamerhint/service/impl/GamerHintMatrixSubService.java:331-335 | the nested loops yield every ordered pair of the merged picks, itself included, or throw exactly when an entry is null |
| MatrixCoords.GenerateCoexistenceXY | indicator/src/main/java/com/smashup/indicator/module/gamerhint/service/impl/GamerHintMatrixSubService.java:313-338 | `generateCoexistenceXY` merges the three rounds, resolves them through the class's index and pairs them, leaving the log untouched |
| MatrixCoords.CoexUpToLength | indicator/src/main/java/com/smashup/indicator/module/gamerhint/service/impl/GamerHintMatrixSubService.java:331-335 | the first `n` rows give `n` times the merged list's length coordinates |
| MatrixCoords.CoexistenceLength | indicator/src/main/java/com/smashup/indicator/module/gamerhint/service/impl/GamerHintMatrixSubService.java:331-335 | a merged list of n picks yields n * n coordinates |
| MatrixCoords.CountConcat | indicator/src/main/java/com/smashup/indicator/module/gamerhint/service/impl/GamerHintMatrixSubService.java:333 | occurrences in a concatenation add up |
| MatrixCoords.CoexRowCount | indicator/src/main/java/com/smashup/indicator/module/gamerhint/service/impl/GamerHintMatrixSubService.java:332-334 | a row holds the pair (x, y) as often as y occurs, when its pick is x, and never otherwise |
| MatrixCoords.CoexUpToCount | indicator/src/main/java/com/smashup/indicator/module/gamerhint/service/impl/GamerHintMatrixSubService.java:331-335 | the first `n` rows hold (x, y) as often as x occurs among the first `n` picks times the occurrences of y |
| MatrixCoords.CoexistenceCount | indicator/src/main/java/com/smashup/indicator/module/gamerhint/service/impl/GamerHintMatrixSubService.java:331-335 | the coexistence list holds (x, y) exactly count(x) * count(y) times |
| MatrixCoords.StartLoop | indicator/src/main/java/com/smashup/indicator/module/gamerhint/service/impl/GamerHintMatrixSubService.java:244-246 | the start loop leads from the "no card yet" row K to each round-1 pick, or throws on a null entry |
| MatrixCoords.PairRowLoop | indicator/src/main/java/com/smashup/indicator/module/gamerhint/service/impl/GamerHintMatrixSubService.java:249-259 | the inner `j` loop of one pairs block yields the pairs of pick `i` with each later pick, each direction set by one draw, or throws on a null entry |
| MatrixCoords.PairsUpToStep | indicator/src/main/java/com/smashup/indicator/module/gamerhint/service/impl/GamerHintMatrixSubService.java:248-260 | one more `i` row extends the pairs block by that row's pairs |
| MatrixCoords.OffsetClosed | indicator/src/main/java/com/smashup/indicator/module/gamerhint/service/impl/GamerHintMatrixSubService.java:248-260 | twice the number of pairs before row `i` is `i * (2n - i - 1)`: a round of n picks has n choose 2 pairs |
| MatrixCoords.PairsLoop | indicator/src/main/java/com/smashup/indicator/module/gamerhint/service/impl/GamerHintMatrixSubService.java:248-260 | the outer `i` loop yields all pairs of the round, or throws exactly when a round of two or more picks has a null entry |
| MatrixCoords.CrossRowLoop | indicator/src/main/java/com/smashup/indicator/module/gamerhint/service/impl/GamerHintMatrixSubService.java:265-268 | one earlier pick is paired with every pick of the next round, each followed by its own diagonal cell, or throws on a null |
| MatrixCoords.CrossLoop | indicator/src/main/java/com/smashup/indicator/module/gamerhint/service/impl/GamerHintMatrixSubService.java:264-269 | every earlier pick is paired with every pick of the next round, or the loop throws |
| MatrixCoords.GenerateTransitionXY | indicator/src/main/java/com/smashup/indicator/module/gamerhint/service/impl/GamerHintMatrixSubService.java:208-311 | the rounds of the log are resolved in place, and the result is the transition list: start, within-round pairs and cross-round pairs, or an exception for a class without an index or a null entry |
| MatrixCoords.CrossUpToLength | indicator/src/main/java/com/smashup/indicator/module/gamerhint/service/impl/GamerHintMatrixSubService.java:264-269 | the first `n` earlier picks give 2 * n * |next round| coordinates |
| MatrixCoords.TransitionLength | indicator/src/main/java/com/smashup/indicator/module/gamerhint/service/impl/GamerHintMatrixSubService.java:244-307 | the number of coordinates is n1 + n1(n1-1) + n2(n2-1) + n3(n3-1) + 2 n1 n2 + 2 (n1+n2) n3 |
| MatrixCoords.StartUpToAt | indicator/src/main/java/com/smashup/indicator/module/gamerhint/service/impl/GamerHintMatrixSubService.java:245 | start coordinate `i` is (K, round1[i]) |
| MatrixCoords.TransitionStart | indicator/src/main/java/com/smashup/indicator/module/gamerhint/service/impl/GamerHintMatrixSubService.java:244-246 | the first n1 coordinates lead from the "no card yet" row K to each round-1 pick |
| MatrixCoords.TransitionPaired | indicator/src/main/java/com/smashup/indicator/module/gamerhint/service/impl/GamerHintMatrixSubService.java:248-306 | after the first n1 coordinates, every coordinate (a, b) is followed by the diagonal cell (a, a) |
| MatrixCoords.PairsRowSlice | indicator/src/main/java/com/smashup/indicator/module/gamerhint/service/impl/GamerHintMatrixSubService.java:248-260 | row `i` of a pairs block sits between positions 2 * Offset(i) and 2 * Offset(i + 1) |
| MatrixCoords.PairDirection | indicator/src/main/java/com/smashup/indicator/module/gamerhint/service/impl/GamerHintMatrixSubService.java:252-258 | the q-th pair i < j of a round is decided by the q-th draw alone: (u[i], u[j]) then (u[i], u[i]) when it is true, (u[j], u[i]) then (u[j], u[j]) otherwise |
| MatrixUpdate.BumpLoop | indicator/src/main/java/com/smashup/indicator/module/gamerhint/service/impl/GamerHintMatrixSubService.java:344-349 | the coordinate loop adds one to each coordinate's cell, in order, and stops at the first coordinate outside the matrix |
| MatrixUpdate.UpdateMatrix | indicator/src/main/java/com/smashup/indicator/module/gamerhint/service/impl/GamerHintMatrixSubService.java:341-363 | `updateMatrix`/`updateWinMatrix` apply the coordinate loop to each target matrix in turn; a missing matrix or an out-of-range coordinate throws and keeps the increments made so far |
| MatrixUpdate.BumpAllStops | indicator/src/main/java/com/smashup/indicator/module/gamerhint/service/impl/GamerHintMatrixSubService.java:344-349 | once a coordinate has thrown, later coordinates change nothing |
| MatrixUpdate.UpdateAllStops | indicator/src/main/java/com/smashup/indicator/module/gamerhint/service/impl/GamerHintMatrixSubService.java:342-350 | once a matrix has thrown, later target ids change nothing |
| MatrixUpdate.BumpAllOk | indicator/src/main/java/com/smashup/indicator/module/gamerhint/service/impl/GamerHintMatrixSubService.java:344-349 | the coordinate loop completes exactly when every coordinate lies inside the matrix |
| MatrixUpdate.BumpAllCell | indicator/src/main/java/com/smashup/indicator/module/gamerhint/service/impl/GamerHintMatrixSubService.java:347-348 | a completed loop adds to each cell the number of times its coordinate occurs in the list |
| MatrixUpdate.UpdateAllUntouched | indicator/src/main/java/com/smashup/indicator/module/gamerhint/service/impl/GamerHintMatrixSubService.java:342-343 | matrices the target list does not name keep their contents, whether or not the update finished |
| MatrixUpdate.UpdateAllShape | indicator/src/main/java/com/smashup/indicator/module/gamerhint/service/impl/GamerHintMatrixSubService.java:341-351 | every matrix keeps its shape |
| MatrixUpdate.UpdateAllOk | indicator/src/main/java/com/smashup/indicator/module/gamerhint/service/impl/GamerHintMatrixSubService.java:341-351 | the update completes exactly when the coordinate list is empty or every target names a present matrix that holds every coordinate |
| MatrixUpdate.UpdateAllCell | indicator/src/main/java/com/smashup/indicator/module/gamerhint/service/impl/GamerHintMatrixSubService.java:341-351 | after a completed update each cell of matrix k grows by (times k is targeted) * (times its coordinate occurs) |
| MatrixUpdate.WeightRowsSpec | indicator/src/main/java/com/smashup/indicator/module/gamerhint/service/impl/GamerHintMatrixSubService.java:392-402 | the row pass completes exactly when every row other than the two card rows can be read, and then sets column r of each such row to three tenths (truncated) of column u plus column r, leaving every other cell |
| MatrixUpdate.WeightEntryColumn | indicator/src/main/java/com/smashup/indicator/module/gamerhint/service/impl/GamerHintMatrixSubService.java:380-402 | one upgrade entry of the class changes only the reinforce card's column, by three tenths of the upgrade card's column, skipping the two card rows; entries of other classes change nothing |
| MatrixUpdate.WeightAllFrame | indicator/src/main/java/com/smashup/indicator/module/gamerhint/service/impl/GamerHintMatrixSubService.java:376-377 | every matrix keeps its shape, and matrices not targeted keep their contents |
| MatrixUpdate.WeightRowsStops | indicator/src/main/java/com/smashup/indicator/module/gamerhint/service/impl/GamerHintMatrixSubService.java:392-402 | once a row has thrown, later rows change nothing |
| MatrixUpdate.WeightEntriesStops | indicator/src/main/java/com/smashup/indicator/module/gamerhint/service/impl/GamerHintMatrixSubService.java:380-422 | once an entry has thrown, later entries change nothing |
| MatrixUpdate.WeightAllStops | indicator/src/main/java/com/smashup/indicator/module/gamerhint/service/impl/GamerHintMatrixSubService.java:376-423 | once a target matrix has thrown, later targets change nothing |
| MatrixUpdate.WeightRowsLoop | indicator/src/main/java/com/smashup/indicator/module/gamerhint/service/impl/GamerHintMatrixSubService.java:392-402 | the row loop for one upgrade pair computes the row pass |
| MatrixUpdate.WeightEntriesLoop | indicator/src/main/java/com/smashup/indicator/module/gamerhint/service/impl/GamerHintMatrixSubService.java:380-422 | the entry loop on one matrix applies the upgrade entries in iteration order |
| MatrixUpdate.FindKnownReinforce | indicator/src/main/java/com/smashup/indicator/module/gamerhint/service/impl/GamerHintMatrixSubService.java:380-386 | on a missing matrix the entry loop throws exactly when some entry's reinforce card belongs to the class |
| MatrixUpdate.WeightUpdateMatrix | indicator/src/main/java/com/smashup/indicator/module/gamerhint/service/impl/GamerHintMatrixSubService.java:365-424 | `weightUpdateMatrix`: the class is read from the id, a bad class segment throws before any change, and otherwise every target matrix gets the upgrade entries |
| MatrixUpdate.WeightMatrices | indicator/src/main/java/com/smashup/indicator/module/gamerhint/service/impl/GamerHintMatrixSubService.java:376-423 | the loop over the target matrices applies the upgrade entries to each in turn and stops at the first that throws |
| MatrixUpdate.WeightMatrix | indicator/src/main/java/com/smashup/indicator/module/gamerhint/service/impl/GamerHintMatrixSubService.java:376-423 | one target matrix: with no index map for the class, or no such matrix, the first upgrade entry that reaches the matrix throws; otherwise it gets every entry |
| MatrixUpdate.ClassOfDocId | indicator/src/main/java/com/smashup/indicator/module/gamerhint/service/impl/GamerHintMatrixSubService.java:369-371 | the class field of an id built by document generation parses back to its class code |
| Ingest.SumScores | indicator/src/main/java/com/smashup/indicator/module/gamerhint/service/impl/GamerHintMatrixService.java:105-109 | the score loop adds up a player's round scores |
| Ingest.FindWinnerScore | indicator/src/main/java/com/smashup/indicator/module/gamerhint/service/impl/GamerHintMatrixService.java:103-111 | the winner loop computes the winning score of the game |
| Ingest.WinnerScoreSpec | indicator/src/main/java/com/smashup/indicator/module/gamerhint/service/impl/GamerHintMatrixService.java:103-111 | the winning score is at least 0 and at least every player's total, and it is some player's total unless it is 0 |
| Ingest.UpdateDocsLoop | indicator/src/main/java/com/smashup/indicator/module/gamerhint/service/impl/GamerHintMatrixService.java:134-146 | the document loop updates each document of the player's class with the coexistence list (C) or the transition list (T), stopping at the first exception |
| Ingest.UpdateDocsStops | indicator/src/main/java/com/smashup/indicator/module/gamerhint/service/impl/GamerHintMatrixService.java:134-146 | once a document has thrown, later documents change nothing |
| Ingest.UpdateDocsAt | indicator/src/main/java/com/smashup/indicator/module/gamerhint/service/impl/GamerHintMatrixService.java:134-146 | documents of other classes, and those not reached, are unchanged; in a completed loop each document of the class gets its type's coordinate list on every target matrix |
| Ingest.UpdateDocsOk | indicator/src/main/java/com/smashup/indicator/module/gamerhint/service/impl/GamerHintMatrixService.java:134-146 | the document loop completes exactly when every id has a class field and every update of a document of the class completes |
| Ingest.ProcessPlayer | indicator/src/main/java/com/smashup/indicator/module/gamerhint/service/impl/GamerHintMatrixService.java:114-167 | one player: class-100 logs are skipped; otherwise ids and coordinates are generated, pick documents are updated, and win documents too when the player's total is the winning score |
| Ingest.BugClassIgnored | indicator/src/main/java/com/smashup/indicator/module/gamerhint/service/impl/GamerHintMatrixService.java:116-118 | a faulty log of class 100 changes no document |
| Ingest.WinDocsRule | indicator/src/main/java/com/smashup/indicator/module/gamerhint/service/impl/GamerHintMatrixService.java:123-167 | a player whose total is not the winning score leaves the win documents unchanged; otherwise pick and win documents get the same update on the game's four target matrices |
| Ingest.PlayersStop | indicator/src/main/java/com/smashup/indicator/module/gamerhint/service/impl/GamerHintMatrixService.java:114-168 | once a player's update has thrown, the rest of the game changes nothing |
| Ingest.PlayersKeepLength | indicator/src/main/java/com/smashup/indicator/module/gamerhint/service/impl/GamerHintMatrixService.java:114-168 | the player loop never adds or removes documents |
| Ingest.ProcessGame | indicator/src/main/java/com/smashup/indicator/module/gamerhint/service/impl/GamerHintMatrixService.java:89-172 | one game inside its `try`: skipped unless its patch's third field is the current version; an exception keeps the updates made before it |
| Ingest.StaleGameIgnored | indicator/src/main/java/com/smashup/indicator/module/gamerhint/service/impl/GamerHintMatrixService.java:91-101 | a game with fewer than three patch fields or another balance version changes nothing |
| Ingest.GamesKeepLength | indicator/src/main/java/com/smashup/indicator/module/gamerhint/service/impl/GamerHintMatrixService.java:88-173 | the game loop never adds or removes documents |
| Ingest.ProcessGames | indicator/src/main/java/com/smashup/indicator/module/gamerhint/service/impl/GamerHintMatrixService.java:88-173 | the game loop runs every game in order, as the game loop function says |
| Ingest.InsertData | indicator/src/main/java/com/smashup/indicator/module/gamerhint/service/impl/GamerHintMatrixService.java:82-184 | `insertData` loads the live batch of both collections, runs every game, saves the pick documents back and then the win documents, and returns the pick documents carrying the versions the saves gave them; a save that throws ends the call with the saves made before it kept |
| Ingest.GamesRecords | indicator/src/main/java/com/smashup/indicator/module/gamerhint/service/impl/GamerHintMatrixService.java:88-173 | the game loop changes matrices only: every loaded document keeps its id and `@Version` |
| Ingest.PlayersRecords | indicator/src/main/java/com/smashup/indicator/module/gamerhint/service/impl/GamerHintMatrixService.java:114-168 | the player loop changes matrices only |
| Ingest.PlayerStepRecords | indicator/src/main/java/com/smashup/indicator/module/gamerhint/service/impl/GamerHintMatrixService.java:114-167 | one player changes matrices only |
| Ingest.UpdateDocsRecords | indicator/src/main/java/com/smashup/indicator/module/gamerhint/service/impl/GamerHintMatrixService.java:134-146 | the document loop changes matrices only |
| Ingest.LoadedReadFrom | indicator/src/main/java/com/smashup/indicator/module/gamerhint/service/impl/GamerHintMatrixSubService.java:29-32 | the documents of a query, changed in matrices only, have distinct ids and each carries the version stored under its id |
| Ingest.QuerySavesBack | indicator/src/main/java/com/smashup/indicator/module/gamerhint/service/impl/GamerHintMatrixService.java:176-181 | saving back the documents of a query of a collection with distinct ids and stored versions succeeds, keeps the size and stores every document advanced |
| Ingest.QueryVersionsAdvance | indicator/src/main/java/com/smashup/indicator/module/gamerhint/service/impl/GamerHintMatrixService.java:176-183 | the saved documents are the loaded ones, in order, each with its version one higher |
| Ingest.SavedAdvances | indicator/src/main/java/com/smashup/indicator/module/gamerhint/service/impl/GamerHintMatrixService.java:176-183 | documents with the loaded ids and versions, saved, carry those versions plus one |
| Ingest.InsertDataSaves | indicator/src/main/java/com/smashup/indicator/module/gamerhint/service/impl/GamerHintMatrixService.java:82-184 | with distinct ids and stored versions in both collections, every save of `insertData` is a successful update, both collections keep their size and hold every saved document, and the returned pick documents are the loaded ones with versions one higher |
| Ingest.ExtractAll | indicator/src/main/java/com/smashup/indicator/module/gamerhint/service/impl/GamerHintMatrixService.java:45-57 | one reduced copy per document, in order |
| Ingest.ExtractAllSpec | indicator/src/main/java/com/smashup/indicator/module/gamerhint/service/impl/GamerHintMatrixService.java:46-54 | each copy keeps the id, type, version and card pool and holds only the "-1/-1" matrix, when there is one |
| Ingest.GetIndicator | indicator/src/main/java/com/smashup/indicator/module/gamerhint/service/impl/GamerHintMatrixService.java:37-59 | `getIndicator`: null at batch 1, otherwise the previous batch's documents, with the stored `@Version` counter, reduced to their "all" matrix |
| Version.MatrixDb.constructor | indicator/src/main/java/com/smashup/indicator/module/version/service/impl/VersionService.java:25-26 | both document collections start empty |
| Version.VersionService.constructor | indicator/src/main/java/com/smashup/indicator/module/version/service/impl/VersionService.java:29-31 | the old and current patch versions start as "not yet set" and the batch count at 1 |
| Version.VersionService.ResetBatchCount | indicator/src/main/java/com/smashup/indicator/module/version/service/impl/VersionService.java:115-117 | the batch count goes back to 1 and the versions stay |
| Version.VersionService.IncrementBatchCount | indicator/src/main/java/com/smashup/indicator/module/version/service/impl/VersionService.java:119-121 | the batch count goes up by one and the versions stay |
| Version.VersionService.UpdatePatchVersion | indicator/src/main/java/com/smashup/indicator/module/version/service/impl/VersionService.java:33-92 | `updatePatchVersion` changes the service's fields and both collections as the patch-version rules say: the batch-1 skeletons are inserted, picks first, and an id already stored ends the seeding with the earlier inserts kept and the win skeletons skipped if a pick insert threw; with `asWritten` the re-attach test is the program's `^`-prefix `haveDocument`, without it the exact-version test |
| Version.VersionService.UpdatePool | indicator/src/main/java/com/smashup/indicator/module/version/service/impl/VersionService.java:95-113 | a wrong token returns null and changes nothing; otherwise the pool manager takes the request, and the reply echoes the pools in force unless a class without a card pool made it throw |
| Version.PatchGuards | indicator/src/main/java/com/smashup/indicator/module/version/service/impl/VersionService.java:39-47 | a wrong token returns null and changes nothing; the version already current is returned unchanged; a new version the pool manager does not hold throws before any change |
| Version.PatchChange | indicator/src/main/java/com/smashup/indicator/module/version/service/impl/VersionService.java:48-74 | a real change makes the new version current and the previous one (or the request's) old; a latest batch count is kept without seeding exactly when the re-attach test finds documents (with `asWritten`, any id starting with the version, as `haveDocument` does; otherwise documents of that exact version), and the count is reset to 1 otherwise; either way both collections only grow at the end |
| Version.SeedSaves | indicator/src/main/java/com/smashup/indicator/module/version/service/impl/VersionService.java:74-89 | when the version is seeded, the pick collection gains the fresh pick skeletons, each with `@Version` 0, up to the first one whose id is already stored; the win collection gains its skeletons, again up to the first taken id, only when every pick skeleton went in, and is unchanged otherwise; with no id taken, every skeleton is stored |
| Version.SeedStopsOnTakenId | indicator/src/main/java/com/smashup/indicator/module/version/service/impl/VersionService.java:74-89 | when the first class's batch-1 C document is already stored, its insert throws at once: neither collection changes, while the new version is current and the counter is 1 |
| Version.FirstTaken | indicator/src/main/java/com/smashup/indicator/module/version/service/impl/VersionService.java:79-81 | the position of the first document whose id is already stored, or the length when none is |
| Version.InsertUpToSpec | indicator/src/main/java/com/smashup/indicator/module/version/service/impl/VersionService.java:77-89 | with distinct ids among new documents, the save loop inserts exactly those before the first id already stored, each with `@Version` 0, and completes iff there is none |
| Version.SavedNew | indicator/src/main/java/com/smashup/indicator/module/version/service/impl/VersionService.java:77-89 | new documents are saved with `@Version` 0 |
| Version.InsertUpToKeeps | indicator/src/main/java/com/smashup/indicator/module/version/service/impl/VersionService.java:77-89 | the insert loop never moves a stored document: it only appends |
| Version.ReattachFinding | indicator/src/main/java/com/smashup/indicator/module/version/service/impl/VersionService.java:55-62 | when only version "12" has documents, the update as written keeps batch 5 for version "1" without seeding, while the corrected update restarts version "1" at batch 1 |
| Version.CloneUpToStops | indicator/src/main/java/com/smashup/indicator/module/version/BatchCountScheduler.java:47-69 | once a document with a bad id or a taken clone id has thrown, later documents are not saved |
| Version.SaveClones | indicator/src/main/java/com/smashup/indicator/module/version/BatchCountScheduler.java:47-69 | the clone loop re-ids each document of the previous batch into the new batch, stamps the batch on pick documents, clears the version field and inserts it, with version 0; an id already stored makes the insert throw and ends the loop |
| Version.CloneStep | indicator/src/main/java/com/smashup/indicator/module/version/BatchCountScheduler.java:47-69 | one turn of the clone loop appends the clone with `@Version` 0, or ends the loop on a bad id or an id already stored |
| Version.BatchCountScheduler.constructor | indicator/src/main/java/com/smashup/indicator/module/version/BatchCountScheduler.java:21-26 | the scheduler holds the version service and the ready-made cache it was given |
| Version.BatchCountScheduler.IncrementBatchCount | indicator/src/main/java/com/smashup/indicator/module/version/BatchCountScheduler.java:31-81 | one hourly rotation changes the counter, both collections and the cache exactly as the rotation function says |
| Version.RotationAdvances | indicator/src/main/java/com/smashup/indicator/module/version/BatchCountScheduler.java:37 | the counter advances by exactly one whatever happens after it, and the versions stay |
| Version.CloneOfDocId | indicator/src/main/java/com/smashup/indicator/module/version/BatchCountScheduler.java:49-55 | a clone keeps type, class, card pool and matrices, takes the current version and new batch in its id, clears the version field and, for pick documents, takes the new batch number |
| Version.CloneUpToKeeps | indicator/src/main/java/com/smashup/indicator/module/version/BatchCountScheduler.java:47-69 | the clone loop never moves or alters a stored document and appends only clones of loaded documents, each inserted with `@Version` 0 |
| Version.RotationOnlyAppends | indicator/src/main/java/com/smashup/indicator/module/version/BatchCountScheduler.java:39-69 | a rotation leaves every stored document in place, those of the batch it copies from included: both collections only grow at the end |
| Version.RotationStopsOnTakenId | indicator/src/main/java/com/smashup/indicator/module/version/BatchCountScheduler.java:31-81 | when the first pick clone's id is already stored, its insert throws: the counter has moved on, but neither collection nor the ready-made cache changes |
| Version.EmptyBatchNoSaves | indicator/src/main/java/com/smashup/indicator/module/version/BatchCountScheduler.java:39-73 | with an empty previous batch nothing is saved, and the ready-made cache is emptied |
| CardOpen.Others | indicator/src/main/java/com/smashup/indicator/module/gamerhint/service/impl/PseudoCodeRefactoring.java:96-100 | the cards that take part in a score are exactly the merged cards other than the open card |
| CardOpen.CountAbove | indicator/src/main/java/com/smashup/indicator/module/gamerhint/service/impl/PseudoCodeRefactoring.java:73-79 | the number of scores beating the open card's never exceeds the list's length |
| CardOpen.TermsStops | indicator/src/main/java/com/smashup/indicator/module/gamerhint/service/impl/PseudoCodeRefactoring.java:96-114 | once a term has thrown, the score list is not produced |
| CardOpen.CalculateScoreMean | indicator/src/main/java/com/smashup/indicator/module/gamerhint/service/impl/PseudoCodeRefactoring.java:93-130 | `calculateScoreMean` averages the coupling scores of the candidate with every merged card but the open one, a zero diagonal giving score 0 and an empty list mean 0; an unknown card or a missing matrix throws |
| CardOpen.TermsSpec | indicator/src/main/java/com/smashup/indicator/module/gamerhint/service/impl/PseudoCodeRefactoring.java:96-114 | the score list has one term per participating card, in order, and is missing exactly when one term throws |
| CardOpen.RealSumBounds | indicator/src/main/java/com/smashup/indicator/module/gamerhint/service/impl/PseudoCodeRefactoring.java:116-119 | a sum of values in [lo, hi] lies between n * lo and n * hi |
| CardOpen.ScoreMeanBounds | indicator/src/main/java/com/smashup/indicator/module/gamerhint/service/impl/PseudoCodeRefactoring.java:121-127 | the mean score lies within any bounds, around 0, that hold for every term |
| CardOpen.MeanBounds | indicator/src/main/java/com/smashup/indicator/module/gamerhint/service/impl/PseudoCodeRefactoring.java:126 | the mean of a non-empty list of values in [lo, hi] is in [lo, hi] |
| CardOpen.ScoresStops | indicator/src/main/java/com/smashup/indicator/module/gamerhint/service/impl/PseudoCodeRefactoring.java:65-68 | once a replaceable card's score has thrown, the hint is not produced |
| CardOpen.ScoreReplaceable | indicator/src/main/java/com/smashup/indicator/module/gamerhint/service/impl/PseudoCodeRefactoring.java:65-68 | the replaceable cards' scores in place of the open card, in the set's order, or an exception |
| CardOpen.OpenEntry | indicator/src/main/java/com/smashup/indicator/module/gamerhint/service/impl/PseudoCodeRefactoring.java:57-84 | one open card's hint: its own mean score, and the share of the score list that beats it |
| CardOpen.ReplaceCardPool | indicator/src/main/java/com/smashup/indicator/module/gamerhint/service/impl/PseudoCodeRefactoring.java:38-40 | `new HashSet<>(cardPool)` then `removeAll(mergedList)` computes the replaceable cards |
| CardOpen.ReplaceSpec | indicator/src/main/java/com/smashup/indicator/module/gamerhint/service/impl/PseudoCodeRefactoring.java:39-40 | the replaceable cards are each card of the pool outside the merged list, once |
| CardOpen.ResultsStops | indicator/src/main/java/com/smashup/indicator/module/gamerhint/service/impl/PseudoCodeRefactoring.java:55-86 | once an open card's hint has thrown, the result map is not produced |
| CardOpen.AddHint | indicator/src/main/java/com/smashup/indicator/module/gamerhint/service/impl/PseudoCodeRefactoring.java:55-86 | one turn of the open-card loop puts that card's hint in the map, or throws |
| CardOpen.CardOpenHints | indicator/src/main/java/com/smashup/indicator/module/gamerhint/service/impl/PseudoCodeRefactoring.java:26-91 | `cardOpen` merges decks and open cards, builds the replaceable set and the index, and maps each open card to its hint |
| CardOpen.CountAboveOwnFirst | indicator/src/main/java/com/smashup/indicator/module/gamerhint/service/impl/PseudoCodeRefactoring.java:62 | the open card's own score at the head of the list never counts as beating it |
| CardOpen.CountAboveZero | indicator/src/main/java/com/smashup/indicator/module/gamerhint/service/impl/PseudoCodeRefactoring.java:73-79 | nothing in the list beats the open card exactly when the count is zero |
| CardOpen.ScoresSpec | indicator/src/main/java/com/smashup/indicator/module/gamerhint/service/impl/PseudoCodeRefactoring.java:65-68 | the scores line up with the replaceable cards, and are missing exactly when one card's score throws |
| CardOpen.DistinctCard | indicator/src/main/java/com/smashup/indicator/module/gamerhint/service/impl/PseudoCodeRefactoring.java:39 | a list without repeats has as many cards as its set |
| CardOpen.CountIsCardinality | indicator/src/main/java/com/smashup/indicator/module/gamerhint/service/impl/PseudoCodeRefactoring.java:73-79 | over distinct replaceable cards, the count of beating scores is the number of cards whose score beats the open card's |
| CardOpen.ShareBounds | indicator/src/main/java/com/smashup/indicator/module/gamerhint/service/impl/PseudoCodeRefactoring.java:80-81 | a count below the size gives a share in [0, 1), zero exactly when the count is |
| CardOpen.EntryExists | indicator/src/main/java/com/smashup/indicator/module/gamerhint/service/impl/PseudoCodeRefactoring.java:61-68 | the hint exists exactly when the open card's own score and every replaceable card's score can be computed |
| CardOpen.EntryShare | indicator/src/main/java/com/smashup/indicator/module/gamerhint/service/impl/PseudoCodeRefactoring.java:61-84 | the hint is the open card's own mean and the count of scores beating it over the list's size, one more than the replaceable cards |
| CardOpen.EntryRank | indicator/src/main/java/com/smashup/indicator/module/gamerhint/service/impl/PseudoCodeRefactoring.java:73-84 | the rank lies in [0, 1), and it is 0 exactly when no replaceable card scores above the open card |
| CardOpen.ResultsSpec | indicator/src/main/java/com/smashup/indicator/module/gamerhint/service/impl/PseudoCodeRefactoring.java:55-86 | the loop fails exactly when some open card's hint throws; otherwise the map's keys are the open cards and each holds its card's hint |
| CardOpen.CardOpenAt | indicator/src/main/java/com/smashup/indicator/module/gamerhint/service/impl/PseudoCodeRefactoring.java:26-91 | each key of the result is an open card whose rank is the number of replaceable cards beating its own score over one more than their count |
| LegacyHint.Rendered | indicator/src/main/java/com/smashup/indicator/module/gamerhint/service/impl/GamerHintService.java:99-101 | each card id rendered in decimal, one string per card, in order |
| LegacyHint.SlashedCons | indicator/src/main/java/com/smashup/indicator/module/gamerhint/service/impl/GamerHintService.java:98-100 | the builder loop appends each part followed by a slash |
| LegacyHint.SlashedJoin | indicator/src/main/java/com/smashup/indicator/module/gamerhint/service/impl/GamerHintService.java:98-102 | the builder's contents plus the last part is the parts joined by `/` |
| LegacyHint.BuildDeckId | indicator/src/main/java/com/smashup/indicator/module/gamerhint/service/impl/GamerHintService.java:92-102 | the merge, sort and `StringBuilder` loop compute the deck id of the cards, and throw on an empty list |
| LegacyHint.RenderedNoSlash | indicator/src/main/java/com/smashup/indicator/module/gamerhint/service/impl/GamerHintService.java:99 | a rendered card id never holds a slash |
| LegacyHint.RenderedInjective | indicator/src/main/java/com/smashup/indicator/module/gamerhint/service/impl/GamerHintService.java:99 | distinct card lists render differently |
| LegacyHint.DeckIdSameCards | indicator/src/main/java/com/smashup/indicator/module/gamerhint/service/impl/GamerHintService.java:92-102 | two non-empty drafts get the same deck id exactly when they hold the same cards with the same counts, whatever their order |
| LegacyHint.DeckIdNotNoCard | indicator/src/main/java/com/smashup/indicator/module/gamerhint/service/impl/GamerHintService.java:24-102 | a deck id exists exactly when there is a card, and it is never the `NO_CARD` key |
| LegacyHint.CountCardsSpec | indicator/src/main/java/com/smashup/indicator/module/gamerhint/service/impl/GamerHintService.java:80-85 | the card loop succeeds exactly when every card has an index inside the counters, and then raises each slot by the number of cards sent to it |
| LegacyHint.TallySpec | indicator/src/main/java/com/smashup/indicator/module/gamerhint/service/impl/GamerHintService.java:106-125 | one deck is created with K+1 zeros when absent, gains each card of its round and one play in slot K, and every other deck is unchanged |
| LegacyHint.Steps | indicator/src/main/java/com/smashup/indicator/module/gamerhint/service/impl/GamerHintService.java:70-164 | each player touches three decks |
| LegacyHint.TallyAllOthers | indicator/src/main/java/com/smashup/indicator/module/gamerhint/service/impl/GamerHintService.java:70-164 | a deck that no block of the player counts into keeps its counters |
| LegacyHint.PlayerNoCard | indicator/src/main/java/com/smashup/indicator/module/gamerhint/service/impl/GamerHintService.java:72-88 | the `NO_CARD` deck gains the first round's cards and one play |
| LegacyHint.EmptyEarlyRoundsFail | indicator/src/main/java/com/smashup/indicator/module/gamerhint/service/impl/GamerHintService.java:98-101 | a player with no card in rounds one and two makes `get(size()-1)` throw |
| LegacyHint.ClassStep | indicator/src/main/java/com/smashup/indicator/module/gamerhint/service/impl/GamerHintService.java:64-68 | the player's class map exists afterwards, created when absent, and no other class map appears |
| LegacyHint.ClassIdPrefix | indicator/src/main/java/com/smashup/indicator/module/gamerhint/service/impl/GamerHintService.java:38-46 | each class document id lies under `patch/batch/` |
| LegacyHint.LoadedSpec | indicator/src/main/java/com/smashup/indicator/module/gamerhint/service/impl/GamerHintService.java:45-55 | one class map per class of the pool, holding the stored decks or an empty map, all under `patch/batch/` |
| LegacyHint.PlayersKeys | indicator/src/main/java/com/smashup/indicator/module/gamerhint/service/impl/GamerHintService.java:62-166 | the player loop keeps every loaded class map, adds the class map of each player, and adds nothing outside `patch/batch/` |
| LegacyHint.InsertLegacySpec | indicator/src/main/java/com/smashup/indicator/module/gamerhint/service/impl/GamerHintService.java:30-182 | after a successful insert every class of the pool and every player's class has a document carrying the card pool, and documents of other batches are untouched |
| LegacyHint.NewCounts | indicator/src/main/java/com/smashup/indicator/module/gamerhint/service/impl/GamerHintService.java:73-76 | the `temp.add(0)` loop gives K+1 zeros |
| LegacyHint.CountLoop | indicator/src/main/java/com/smashup/indicator/module/gamerhint/service/impl/GamerHintService.java:80-85 | the card loop adds one per card at its index, failing as the unknown card or the index out of range does |
| LegacyHint.CountCardsStops | indicator/src/main/java/com/smashup/indicator/module/gamerhint/service/impl/GamerHintService.java:80-85 | once a card has thrown, the whole round throws |
| LegacyHint.TallyDeck | indicator/src/main/java/com/smashup/indicator/module/gamerhint/service/impl/GamerHintService.java:106-125 | one deck block: create when absent, count the round, count the play |
| LegacyHint.ProcessDraft | indicator/src/main/java/com/smashup/indicator/module/gamerhint/service/impl/GamerHintService.java:70-164 | the three deck blocks of one player, in order, or the exception of the first that throws |
| LegacyHint.HintRepository.FindById | indicator/src/main/java/com/smashup/indicator/module/gamerhint/service/impl/GamerHintService.java:48-49 | the stored document under an id, or none |
| LegacyHint.HintRepository.InsertData | indicator/src/main/java/com/smashup/indicator/module/gamerhint/service/impl/GamerHintService.java:30-182 | `insertData` saves the new class documents exactly when no player throws, and leaves the store as it was otherwise |
| LegacyHint.HintRepository.LoadClasses | indicator/src/main/java/com/smashup/indicator/module/gamerhint/service/impl/GamerHintService.java:45-55 | the class loop's map of loaded decks |
| LegacyHint.RunPlayers | indicator/src/main/java/com/smashup/indicator/module/gamerhint/service/impl/GamerHintService.java:62-166 | the player loop computes the class maps, or fails as the first throwing player does |
| LegacyHint.PlayersStop | indicator/src/main/java/com/smashup/indicator/module/gamerhint/service/impl/GamerHintService.java:62-166 | once a player has thrown, the loop does not finish |
| LegacyHint.HintRepository.Save | indicator/src/main/java/com/smashup/indicator/module/gamerhint/service/impl/GamerHintService.java:178 | `save` stores the document under its id, replacing any earlier one |
| LegacyHint.HintRepository.SaveEach | indicator/src/main/java/com/smashup/indicator/module/gamerhint/service/impl/GamerHintService.java:170-179 | the final loop saves one document per class map, each carrying the card pool and its decks |
| RoomDb.FirstRoomOf | MatchingServer/src/repository/room_repository.cpp:197-206 | the room of the user's first `room_users` row, none exactly when the user has no row |
| RoomDb.CountAppend | MatchingServer/src/repository/room_repository.cpp:170-175 | a new row raises its own room's count by one and no other room's |
| RoomDb.CountZero | MatchingServer/src/repository/room_repository.cpp:217-224 | a room counts zero rows exactly when no row names it |
| RoomDb.WithoutSpec | MatchingServer/src/repository/room_repository.cpp:212-215 | the delete leaves exactly the rows of the other users |
| RoomDb.CountWithout | MatchingServer/src/repository/room_repository.cpp:212-222 | deleting a user's rows lowers a room's count by one when the user was in it, and otherwise not at all |
| RoomDb.WithoutNoDuplicates | MatchingServer/src/repository/room_repository.cpp:212-215 | the delete keeps the table free of repeated rows |
| RoomDb.JoinCheckSpec | MatchingServer/src/repository/room_repository.cpp:113-166 | `addPlayer` accepts exactly when the room exists and is WAITING, the user is not in it yet and a seat is free |
| RoomDb.CreateKeepsValid | MatchingServer/src/repository/room_repository.cpp:80-110 | reactivating a TERMINATED room keeps every row pointing at a live room with seats to spare, and no repeated row |
| RoomDb.JoinKeepsValid | MatchingServer/src/repository/room_repository.cpp:113-188 | an accepted join keeps the table consistent |
| RoomDb.LeaveKeepsValid | MatchingServer/src/repository/room_repository.cpp:191-241 | a leave keeps the table consistent and removes every row of the user |
| RoomDb.LeaveRowsValid | MatchingServer/src/repository/room_repository.cpp:212-230 | after a leave every remaining row names a room that is not TERMINATED |
| RoomDb.StatusKeepsValid | MatchingServer/src/repository/game_repository.cpp:28-80 | a game moving a room between WAITING and in progress keeps the table consistent |
| RoomDb.MatchDb.FindValidRoom | MatchingServer/src/repository/room_repository.cpp:18-40 | `findValidRoom` returns the lowest TERMINATED room id, or -1 when there is none or the query fails |
| RoomDb.MatchDb.Create | MatchingServer/src/repository/room_repository.cpp:80-110 | `create` reactivates the room with its new name, host and maximum exactly when it was TERMINATED and the query succeeds |
| RoomDb.MatchDb.AddPlayer | MatchingServer/src/repository/room_repository.cpp:113-188 | `addPlayer` appends the user's row exactly when every guard passes |
| RoomDb.MatchDb.RemovePlayer | MatchingServer/src/repository/room_repository.cpp:191-241 | `removePlayer` deletes the user's rows and terminates their first room when it is left empty, or fails and changes nothing when the user is in no room |
| RoomDb.MatchDb.GetPlayerCount | MatchingServer/src/repository/room_repository.cpp:244-263 | the room's number of rows, or -1 when the query fails |
| RoomDb.MatchDb.CreateGame | MatchingServer/src/repository/game_repository.cpp:14-52 | `createGame` adds a game under the next id and puts its room in progress, or returns -1 and changes no table; the serial is used up unless the failure came before the insert drew it |
| RoomDb.MatchDb.EndGame | MatchingServer/src/repository/game_repository.cpp:55-107 | `endGame` completes the game and sets its room WAITING, returning the room id, or -1 with nothing changed |
| RoomDb.LastMemberTerminates | MatchingServer/src/repository/room_repository.cpp:217-230 | the last member to leave a room terminates it |
| RoomDb.OthersStay | MatchingServer/src/repository/room_repository.cpp:217-230 | a room that still has members after a leave keeps its status |
| RoomService.AllowedByteRanges | MatchingServer/src/service/room_service.cpp:26-47 | the two bit masks accept exactly the lead bytes 0xE0-0xEF and the continuation bytes 0x80-0xBF, besides ASCII letters, digits and space |
| RoomService.LoneContinuationAccepted | MatchingServer/src/service/room_service.cpp:41-44 | a name made of one stray UTF-8 continuation byte is accepted as a room name |
| RoomService.IsValidRoomName | MatchingServer/src/service/room_service.cpp:14-51 | the byte loop accepts a name exactly when it has 1 to 40 bytes, each of them allowed |
| RoomService.CreateCheck | MatchingServer/src/service/room_service.cpp:65-82 | a create request passes exactly when its three fields are present, the name is valid and the maximum lies in 2..8; the missing-fields message comes exactly when a field is absent |
| RoomService.MsCreateRoom | MatchingServer/src/service/room_service.cpp:61-110 | the matching server's `createRoom` answers the first failed check, and succeeds exactly when every check passes and a room was created, echoing its id, address and port |
| RoomService.GsCreateRoom | GameSocketServer/src/service/room_service.cpp:61-117 | the game socket server's `createRoom` answers the first failed check, and succeeds exactly when the room is created and its host added, echoing the id and name |
| RoomService.GsJoinRoom | GameSocketServer/src/service/room_service.cpp:119-163 | `joinRoom` needs both ids, and succeeds exactly when the player is added, reporting the room and its player count |
| RoomService.GsExitRoom | GameSocketServer/src/service/room_service.cpp:165-198 | `exitRoom` needs the user id and succeeds exactly when the user was in a room |
| RoomService.MsJoinRoom | MatchingServer/src/service/room_service.cpp:112-146 | the matching server's `joinRoom` succeeds exactly when the ids are present and `addPlayer` accepts, adding exactly that row |
| RoomService.MsExitRoom | MatchingServer/src/service/room_service.cpp:148-181 | the matching server's `exitRoom` succeeds exactly when the user is in a room, removing their rows, and changes nothing otherwise |
| GameService.StartGameReply | MatchingServer/src/service/game_service.cpp:19-55 | `startGame` needs the room and map ids, and succeeds exactly when the repository returns a game id other than -1, announcing `gameStart` with that id |
| GameService.EndGameReplyAsWritten | MatchingServer/src/service/game_service.cpp:57-88 | as written, `endGame` succeeds whenever the repository's answer is non-zero and the room id can be read, including the failure answer -1 |
| GameService.EndGameReply | MatchingServer/src/service/game_service.cpp:57-88 | with -1 read as the repository's failure, `endGame` answers the failure message for it and succeeds exactly when the game was ended and the room id can be read |
| GameService.EndGameFinding | MatchingServer/src/service/game_service.cpp:67-71 | a game id the repository does not know is reported as ended by the code as written, and as a failure by the corrected reply |
| GameService.StartGame | MatchingServer/src/service/game_service.cpp:19-55 | with the repository, `startGame` succeeds exactly when both ids are present and the room exists; the new game gets the next id and its room goes in progress, otherwise no table changes; once both ids are present the serial is used up unless the failure came before the insert |
| GameService.EndGameAsWritten | MatchingServer/src/service/game_service.cpp:57-88 | as written, a failing repository leaves the tables unchanged while the reply says success |
| GameService.EndGame | MatchingServer/src/service/game_service.cpp:57-88 | the corrected `endGame` succeeds exactly when the game is completed, its room set WAITING and the room id can be read; nothing changes when it fails |
| Password.HexDigit | GameSocketServer/src/util/password_util.cpp:18 | each nibble has one lowercase hex digit, read back to the nibble |
| Password.Hex | GameSocketServer/src/util/password_util.cpp:16-22 | the rendering has two characters per byte |
| Password.HexAt | GameSocketServer/src/util/password_util.cpp:17-20 | byte i is written at positions 2i and 2i+1, high nibble first, zero-padded |
| Password.ByteRoundTrip | GameSocketServer/src/util/password_util.cpp:18-19 | a byte's two digits read back to the byte |
| Password.UnhexHex | GameSocketServer/src/util/password_util.cpp:16-22 | reading the hex rendering back gives the digest bytes |
| Password.HexInjective | GameSocketServer/src/util/password_util.cpp:16-22 | two digests render the same exactly when they are equal |
| Password.HashPassword | GameSocketServer/src/util/password_util.cpp:10-23 | `hashPassword` gives 64 characters |
| Password.VerifyAgainstHash | GameSocketServer/src/util/password_util.cpp:25-29 | `verifyPassword` accepts against a stored hash exactly when the two passwords have the same SHA-256 digest |
| Password.HexDigest | GameSocketServer/src/util/password_util.cpp:16-22 | the stringstream loop gives the hex rendering of the digest |
| Auth.Lower | MatchingServer/src/repository/user_repository.cpp:25 | SQL `LOWER` keeps the length and lowers each character |
| Auth.FindByName | MatchingServer/src/repository/user_repository.cpp:20-52 | the first row whose name matches, none exactly when no row matches |
| Auth.FindByNameAppend | MatchingServer/src/repository/user_repository.cpp:25-81 | a name found nowhere is found in the row registered for it |
| Auth.FindIgnoresCase | MatchingServer/src/repository/user_repository.cpp:25 | the matching server's lookup cannot tell apart names that differ only in ASCII case |
| Auth.StampLogin | MatchingServer/src/repository/user_repository.cpp:84-104 | every row of the user gets the login time, and every other row is unchanged |
| Auth.UserTable.FindByUsername | MatchingServer/src/repository/user_repository.cpp:20-52 | `findByUsername` answers the first matching row; none when no row matches, when the query fails, or, on the matching server's table as written, when the row's login time is NULL and reading it throws |
| Auth.UserTable.Create | MatchingServer/src/repository/user_repository.cpp:55-81 | `create` appends a row with the next serial id and returns it, or returns -1 and adds nothing; a failed insert uses up the serial when it had drawn it |
| Auth.UserTable.UpdateLastLogin | GameSocketServer/src/repository/user_repository.cpp:117-136 | `updateLastLogin` stamps the user's rows with the login time, or changes nothing when the query fails |
| Auth.RegisterCheck | MatchingServer/src/service/auth_service.cpp:23-38 | registration passes the length checks exactly when the name has 3 to 20 characters and the password at least 6; the name message comes first |
| Auth.RegisterThenLogin | GameSocketServer/src/repository/user_repository.cpp:53-90 | with a lookup that reads a NULL login time as missing, a name registered once is then found with the new row, whose hash verifies the password |
| Auth.FreshUserUnreadable | MatchingServer/src/repository/user_repository.cpp:20-52 | with the matching server's lookup as written, a user just registered under a free name is not found: login answers "Invalid username" and the name can be registered again |
| Auth.MsRegister | MatchingServer/src/service/auth_service.cpp:20-70 | the matching server's register answers the first failed check, and succeeds exactly when the lookup finds no readable row (or fails) and the insert works, appending the new row and echoing its id and name; otherwise no row is added, and the serial moves on exactly when the insert ran or drew it |
| Auth.LoginReply | MatchingServer/src/service/auth_service.cpp:93-101 | a login reply is a success carrying the row's id, name and previous login time |
| Auth.MsLogin | MatchingServer/src/service/auth_service.cpp:72-102 | the matching server's login answers "Invalid username" when the lookup finds no readable row (on the table as written, also for a user who never logged in) or "Invalid password", and succeeds exactly when the password verifies, stamping the login time |
| Auth.GsRegister | GameSocketServer/src/service/auth_service.cpp:16-61 | the game socket server's register gives the same verdicts through its response struct |
| Auth.GsLogin | GameSocketServer/src/service/auth_service.cpp:63-95 | the game socket server's login succeeds exactly when the password verifies, returns the row's figures, and gives one message for both failures |
| MatchingSession.Server.RegisterSession | MatchingServer/src/core/server.cpp:50-66 | `registerSession` files the session under the new token and drops any older token of the same session |
| MatchingSession.Server.RemoveSession | MatchingServer/src/core/server.cpp:68-75 | `removeSession` erases the token, if present |
| MatchingSession.Server.GetSession | MatchingServer/src/core/server.cpp:77-84 | `getSession` finds the session exactly when the token is registered |
| MatchingSession.Server.Stop | MatchingServer/src/core/server.cpp:116-127 | `stop` forgets every session |
| MatchingSession.RegisterKeepsOneToken | MatchingServer/src/core/server.cpp:50-66 | registering keeps every session under at most one token, the new one for the registered session |
| MatchingSession.RouteOf | MatchingServer/src/core/session.cpp:194-258 | auth actions are forwarded to "auth"; room and game actions to their controller with the user id injected, only when logged in, and "Authentication required" otherwise; anything outside the known actions is unknown |
| MatchingSession.Forwarded | MatchingServer/src/core/session.cpp:197-223 | an injected request carries the session's user id; otherwise the request goes unchanged |
| MatchingSession.ClassifyHandshake | MatchingServer/src/core/session.cpp:84-125 | a handshake with connection type "mirror" and a port is a mirror on that port; otherwise one with an action is a client request |
| MatchingSession.Session.constructor | MatchingServer/src/core/session.cpp:14-22 | a new session has no user, no token and its activity time set to now |
| MatchingSession.Session.ActiveWhileRecent | MatchingServer/src/core/session.cpp:59-63 | a session is active exactly while it has been idle for less than the timeout |
| MatchingSession.Session.HandlePing | MatchingServer/src/core/session.cpp:45-57 | a ping refreshes the activity time, keeps the rest of the session, and answers "pong" with the token |
| MatchingSession.Session.AutoExit | MatchingServer/src/core/session.cpp:375-417 | on a session error, an exit from the room is sent exactly when a room controller exists and a user is logged in, for that user |
| MatchingSession.Session.ReadHandshake | MatchingServer/src/core/session.cpp:75-134 | a mirror handshake marks the session as the mirror of its port; a client handshake registers the session under a new token; a malformed one changes nothing |
| MatchingSession.Session.LogIn | MatchingServer/src/core/session.cpp:268-432 | a successful login takes the reply's user id and name, registers a new token and adds it to the reply |
| MatchingSession.Session.ProcessRequest | MatchingServer/src/core/session.cpp:187-340 | `process_request` rejects a request without a string action, answers the authentication, unknown and internal errors, forwards the rest to the right controller, answers ping with a pong carrying the token, capacity and CCU with the server's figures, and exits the room only on logout; a controller's response is handled as `ControllerVerdict` says: a login verdict takes the user id, registers the new token and adds it to the response, and every other verdict's reply is written back with the user unchanged |
| MatchingSession.VerdictCases | MatchingServer/src/core/session.cpp:262-339 | a throwing controller, or a response other than an object or null after a login or room creation, gives "Invalid request format"; other actions get the response back unchanged; a successful login takes its user in iff the response has an integer user id not logged in yet, and otherwise answers "Invalid request format" or "Already login user"; a successful created room is answered only when its mirror server is connected, else "Missing mirror server"; an unsuccessful object response is sent back |
| MatchingSession.CreateRoomStringFinding | MatchingServer/src/controller/room_controller.cpp:41-44 | with the room controller's `response.dump()` string, every room creation is answered "Invalid request format" |
| MatchingSession.CreateRoomObjectReply | MatchingServer/src/core/session.cpp:285-318 | with the room service's object as the response, a created room is answered with it when its mirror is connected and with "Missing mirror server" otherwise, and a refusal is passed on |
| SocketSession.Find | GameSocketServer/src/core/session.cpp:39-52 | `find` returns the first occurrence at or after the start, and none exactly when there is no later occurrence |
| SocketSession.FindIs | GameSocketServer/src/core/session.cpp:39-52 | an occurrence with none before it is the one `find` returns |
| SocketSession.SkipSpace | GameSocketServer/src/core/session.cpp:47 | `stoul` skips leading white space, never lengthening the text |
| SocketSession.DigitPrefix | GameSocketServer/src/core/session.cpp:47 | `stoul` reads the longest run of decimal digits |
| SocketSession.StoulOfDecimal | GameSocketServer/src/core/session.cpp:47-168 | the decimal rendering of a length that fits in an `unsigned long` reads back as that length |
| SocketSession.DigitPrefixAll | GameSocketServer/src/core/session.cpp:47 | an all-digit text is read whole |
| SocketSession.LineEndAfterField | GameSocketServer/src/core/session.cpp:41-46 | the line end found after the field lies past the field's name, so the length's substring is well formed |
| SocketSession.ReadHeader | GameSocketServer/src/core/session.cpp:26-74 | a bad `Content-Length` throws; otherwise without a blank line the session waits; a complete body is the first declared-length bytes after the blank line; a short one keeps everything after the blank line as the partial body, with a positive remainder that makes up the declared length |
| SocketSession.DrainPrefix | GameSocketServer/src/core/session.cpp:76-98 | the body read across chunks holds at least the declared bytes and is a prefix of everything read |
| SocketSession.StatusReturns | GameSocketServer/src/core/session.cpp:165-170 | the status and type lines hold carriage returns only at their line ends |
| SocketSession.StatusCapitals | GameSocketServer/src/core/session.cpp:165-170 | the status and type lines hold no second start of the length field |
| SocketSession.TailChars | GameSocketServer/src/core/session.cpp:169-170 | the keep-alive line holds no blank line until the header's end |
| SocketSession.FieldOfResponse | GameSocketServer/src/core/session.cpp:165-172 | the first `Content-Length: ` of a written response is its own |
| SocketSession.LineOfResponse | GameSocketServer/src/core/session.cpp:168 | the length field's line holds exactly the decimal length of the body |
| SocketSession.NoHeaderEndIn | GameSocketServer/src/core/session.cpp:52 | a stretch with no carriage return two places after another holds no blank line |
| SocketSession.NoBlankLineBefore | GameSocketServer/src/core/session.cpp:165-170 | no blank line occurs before the header's end |
| SocketSession.BlankLineOfResponse | GameSocketServer/src/core/session.cpp:165-172 | the first blank line of a written response ends its header, and the body follows it |
| SocketSession.ReadWrittenResponse | GameSocketServer/src/core/session.cpp:26-186 | reading back a response written by `write_response` yields exactly its body |
| SocketSession.RouteOf | GameSocketServer/src/core/session.cpp:109-125 | "register" and "login" go to auth; "create_room", "join_room" and "list_rooms" go to room; any other action is unknown |
| SocketSession.Connection.OnHeader | GameSocketServer/src/core/session.cpp:26-74 | the header step keeps the partial body when more must be read |
| SocketSession.Connection.OnBody | GameSocketServer/src/core/session.cpp:76-98 | each body chunk is appended, and the body is complete when the chunk covers what remains |
| SocketSession.Connection.ProcessRequest | GameSocketServer/src/core/session.cpp:100-159 | `process_request` rejects an unparsable request or one without a string action, answers unknown actions and missing controllers, forwards auth requests unchanged and room requests with the user id; a controller that throws answers "Invalid request format"; a successful login takes the reply's `user_id` as the session's user (a reply without one answers "Invalid request format"), and any other controller reply is written back as it is with the user unchanged |
| Clock.WholeSeconds | GameSocketServer/src/util/session_pool.cpp:70 | `duration_cast` to seconds truncates toward zero |
| Clock.LongerThan | GameSocketServer/src/util/session_pool.cpp:70-72 | more than `timeout` whole seconds means at least `timeout + 1` seconds of ticks |
| Clock.ShorterThan | MatchingServer/src/core/session.cpp:59-63 | under `timeout` whole seconds means under `timeout` seconds of ticks |
| Json.Put | MatchingServer/src/core/session.cpp:283 | a member written into a reply reads back |
| Json.Touch | MatchingServer/src/core/session.cpp:268 | reading a member through a non-const json succeeds exactly on an object or null, yields the member or a fresh null, and leaves every other member as it was |
| Json.ErrorReplyShape | MatchingServer/src/service/room_service.cpp:66-69 | an error reply is not a success and carries its message |
| Json.SuccessReplyShape | MatchingServer/src/service/room_service.cpp:93-98 | a success reply is a success, carries its message and the extra members |
| SessionExpiry.Kept | GameSocketServer/src/util/session_pool.cpp:66-83 | a sweep keeps exactly the sessions not idle for more than the timeout, with their times |
| SessionExpiry.Dropped | GameSocketServer/src/util/session_pool.cpp:66-83 | a sweep drops exactly the sessions idle for more than the timeout |
| SessionExpiry.SweepPartitions | GameSocketServer/src/util/session_pool.cpp:66-83 | every session is either kept or dropped, never both |
| SessionExpiry.SweepIdempotent | GameSocketServer/src/util/session_pool.cpp:66-83 | a second sweep at the same time drops nothing more |
| SessionExpiry.ExpiresAfter | GameSocketServer/src/util/session_pool.cpp:70-72 | a session expires exactly once `timeout + 1` seconds have passed since its last activity |
| SessionExpiry.SessionPool.constructor | GameSocketServer/src/util/session_pool.cpp:8-15 | a new pool holds no session |
| SessionExpiry.SessionPool.RegisterSession | GameSocketServer/src/util/session_pool.cpp:26-30 | `register_session` sets the session's time to now, whether or not it was there |
| SessionExpiry.SessionPool.UpdateActivity | GameSocketServer/src/util/session_pool.cpp:32-40 | `update_activity` refreshes only a session already in the pool |
| SessionExpiry.SessionPool.RemoveSession | GameSocketServer/src/util/session_pool.cpp:42-50 | `remove_session` drops the session if present |
| SessionExpiry.SessionPool.ActiveSessionsCount | GameSocketServer/src/util/session_pool.cpp:52-55 | the count is the number of sessions in the pool |
| SessionExpiry.SessionPool.Sweep | GameSocketServer/src/util/session_pool.cpp:66-83 | one sweep removes exactly the expired sessions, lists each once, and keeps the others with their times |
| SessionExpiry.FreshSurvives | GameSocketServer/src/util/session_pool.cpp:26-83 | a session registered now survives a sweep now |
| DbPool.FirstFree | GameSocketServer/src/util/db_pool.cpp:55-60 | the lowest slot not in use, none exactly when every slot is in use |
| DbPool.SlotOf | GameSocketServer/src/util/db_pool.cpp:92-98 | the first slot holding the connection, none exactly when no slot holds it |
| DbPool.SlotOfDistinct | GameSocketServer/src/util/db_pool.cpp:92-98 | with distinct connections, a connection is found in its own slot |
| DbPool.Pool.constructor | GameSocketServer/src/util/db_pool.cpp:18-41 | the pool opens `poolSize` distinct connections, all free |
| DbPool.Pool.GetConnection | GameSocketServer/src/util/db_pool.cpp:50-88 | the lowest free slot is taken, its connection replaced when closed; a failed reconnect frees the slot and reports the error; with all slots in use the pool grows by one slot, taken at once; connections stay distinct |
| DbPool.Pool.ReturnConnection | GameSocketServer/src/util/db_pool.cpp:90-103 | the slot holding the connection is free again, and an unknown connection changes nothing |
| DbPool.TakeFirstFree | GameSocketServer/src/util/db_pool.cpp:55-60 | taking the lowest free slot marks only that slot, and the next request looks further on |
| DbPool.ReturnUndoesTake | GameSocketServer/src/util/db_pool.cpp:55-103 | returning the connection just taken restores the flags |
| RequestRouter.Dispatch | APIGatewayServer/src/core/request_router.cpp:8-32 | a request without an action gets "No action specified"; a non-string action throws; an unregistered action gets "Unknown action"; a registered handler's reply is returned, or "Internal server error" when it throws |
| RequestRouter.DispatchLocal | APIGatewayServer/src/core/request_router.cpp:4-32 | routes registered for other actions do not change a request's reply |
| RequestRouter.RegisteredAnswers | APIGatewayServer/src/core/request_router.cpp:4-32 | a handler registered for an action answers that action's requests unless it throws |
| RequestRouter.Router.constructor | APIGatewayServer/src/core/request_router.cpp:4-6 | a new router has no route |
| RequestRouter.Router.RegisterRoute | APIGatewayServer/src/core/request_router.cpp:4-6 | `registerRoute` replaces any earlier handler of the action |
| RequestRouter.Router.Route | APIGatewayServer/src/core/request_router.cpp:8-32 | `route` computes the dispatch of the request against the registered routes |
| LogService.Texts | logging/src/main/kotlin/com/worlcok/logging/service/LogService.kt:29-31 | every item's text, in input order |
| LogService.GameEnds | logging/src/main/kotlin/com/worlcok/logging/service/LogService.kt:33-37 | only `gameEnd` items are gathered, none exactly when there is no `gameEnd` item |
| LogService.GameEndsAppend | logging/src/main/kotlin/com/worlcok/logging/service/LogService.kt:27-43 | gathering two parts gathers each part, in order |
| LogService.Payload | logging/src/main/kotlin/com/worlcok/logging/service/LogService.kt:27-43 | the payload opens with `{"data":[` and closes with `]}` |
| LogService.FirstUntyped | logging/src/main/kotlin/com/worlcok/logging/service/LogService.kt:31-53 | the first item whose `eventType` is not a string, and none exactly when every item has one |
| LogService.SendLogOutcome | logging/src/main/kotlin/com/worlcok/logging/service/LogService.kt:22-44 | an item without a string `eventType` stops the batch after its own Kafka message with nothing sent to the indicator; otherwise every item goes to Kafka in order and the indicator gets the `gameEnd` texts joined by commas exactly when there is one |
| LogService.TerminatedSnoc | logging/src/main/kotlin/com/worlcok/logging/service/LogService.kt:33-37 | each gathered text is appended with a comma |
| LogService.TerminatedIsJoin | logging/src/main/kotlin/com/worlcok/logging/service/LogService.kt:39-43 | dropping the last comma leaves the texts joined by commas |
| LogService.Step | logging/src/main/kotlin/com/worlcok/logging/service/LogService.kt:29-37 | one more item adds its text to Kafka, and to the payload only when it is a `gameEnd` item |
| LogService.Close | logging/src/main/kotlin/com/worlcok/logging/service/LogService.kt:39-43 | closing the builder yields the payload |
| LogService.AbortedOutcome | logging/src/main/kotlin/com/worlcok/logging/service/LogService.kt:31-53 | a batch whose first untyped item is i sends items 0..i to Kafka and stops |
| LogService.CompletedOutcome | logging/src/main/kotlin/com/worlcok/logging/service/LogService.kt:22-44 | a batch whose items all have a string `eventType` is sent whole |
| LogService.SendLog | logging/src/main/kotlin/com/worlcok/logging/service/LogService.kt:22-44 | the `StringBuilder` loop of `sendLog` produces exactly the outcome above |

## Left out

- Mongo and pqxx as I/O: the collections are sequences of documents in natural order and the tables are sequences and maps. Transactions, `@Transactional`, `@Retryable` with its backoff and `@Scheduled` timing are not modelled; each service call is one atomic step. The `@Version` check of a save is modelled; concurrent writers, against which it guards, are not, and without them the updates of `insertData` always succeed (`Ingest.InsertDataSaves`).
- Concurrency: `synchronized`, the mutexes of the session and connection pools, `@Async`, the session pool's cleanup thread and its ten-second sleep loop (GameSocketServer/src/util/session_pool.cpp:57-60). One sweep is modelled, with the time given by the caller.
- Networking: Boost.Asio read and write chains, accept loops, the mirror broadcast, Kafka, Feign, and socket closing on expiry. A session, connection or mirror is named by a number.
- Floating point: rates are exact fractions. Java's rounding of a `double` quotient, and the rounding the rebalance DTOs apply, are not modelled.
- Foreign primitives: SHA-256, UUID tokens and JSON parsing (nlohmann, Jackson, `JSONObject`) are parameters or already-parsed values. A JSON field of the wrong type appears only where the source's own guard reads it (a non-string action, a missing `eventType`).
- `std::stoul` throwing on a malformed `Content-Length` value is caught nowhere in the session: it leaves `io_context.run()` and reaches the catch in GameSocketServer/src/main.cpp:69-73, which returns 1, so the whole game socket server stops. SocketSession.ReadHeader reports it as a `Throws` outcome; the model follows neither the session nor the server past it.
- `steady_clock` ticks are taken as nanoseconds.
- The matching server's `listRooms` and the game socket server's `listRooms` are not modelled. They list the repository's rooms and rename fields, with no branching to state.
- The game socket server's repositories are single-statement wrappers. Only the user lookup and login stamp they share with the matching server are modelled.
- MatchingSession.Session.LogIn does not keep the session's `nick_name_`, which `init_current_user` stores from the reply's `nickName` (MatchingServer/src/core/session.cpp:430); the session uses it only in the log line that follows.
- The `created_at` column, the nickname of `updateNickName`, and `LOWER` on non-ASCII characters are not modelled. `Auth.Lower` lowers ASCII letters only.
- The database pool's exception texts: the pqxx message is replaced by the fixed texts "Failed to reconnect" and "Failed to create new connection". A constructor that throws is not modelled: `DbPool.Pool.constructor` always succeeds.
- MatrixDocs.HaveDocument, and so Version.VersionService.UpdatePatchVersion and Version.PatchChange with `asWritten`, reads the regular expression `^` + version as a literal prefix. A `.` or another metacharacter in a version, which the regular expression would treat specially, is not modelled.
- MatrixDocs.GetLatestBatchCount keeps the prefix test as written. No caller of `getLatestBatchCount` appears in the modelled files.
- Ingest: the rewritten round lists of the request DTO are not returned to the caller.
- The DTO classes lack fields the services read (`allCardPoolMap`, `upgradeCardPoolMap`, `cardPoolMap`, `oldPatchVersion`, `timeStamp`, the card rebalance `name`). They are modelled as the services use them. `getCardPool` is missing from `PoolManager`, so the card pool and index are parameters.
- `PseudoCode.java` is a superseded prototype of `cardOpen` and is not part of this model. In `PseudoCodeRefactoring.java` the matrix is a parameter, because the key `classCode/-1/-1` it looks up is never generated.
- Text.ParseInt accepts a digit string of any length; Java's `Integer.parseInt` also throws outside -2147483648..2147483647, which is not modelled.
- MatrixUpdate.BumpLoop, MatrixUpdate.UpdateMatrix and MatrixUpdate.WeightRowsLoop keep matrix cells as unbounded integers; Java's `int` cells wrap around past 2147483647 (indicator/src/main/java/com/smashup/indicator/module/gamerhint/service/impl/GamerHintMatrixSubService.java:346-347 and 397-399), which is not modelled.
- Ingest.SumScores and Ingest.FindWinnerScore add scores without the 32-bit wrap-around of Java's `int` (indicator/src/main/java/com/smashup/indicator/module/gamerhint/service/impl/GamerHintMatrixService.java:103-111 and 149-152).
- ClassRebalance.CalculateCount and ClassRebalance.ScanTotal sum diagonal cells and counts without the 32-bit wrap-around of Java's `int` (indicator/src/main/java/com/smashup/indicator/module/masterhint/service/impl/MasterHintMatrixService.java:85 and 150).
- CardRebalance.SumCells sums the cells without the 32-bit wrap-around of Java's `int` (indicator/src/main/java/com/smashup/indicator/module/masterhint/service/impl/MasterHintMatrixCardService.java:123).
- RoomService.MsCreateRoom: the matching server's room repository does not define `createRoomWithHost`, which `createRoom` calls (MatchingServer/src/service/room_service.cpp:85). Its answer is the parameter `host`, shaped as the service reads it, and no table change is modelled for it.
- RoomService.GsCreateRoom and RoomService.GsExitRoom: the game socket server's repository interface declares neither `findValidRoom` nor a one-argument `removePlayer(userId)` (GameSocketServer/src/repository/room_repository.h:18-25), yet its room service calls both (GameSocketServer/src/service/room_service.cpp:85 and 179). Their answers are the parameters `validRoom` and `removed`.
- The controllers only pass requests to their services and are not modelled as members; a session takes them as parameters from a request to a response. The one with an effect of its own is the matching server's room controller: its handlers return `response.dump()`, a JSON string, which MatchingSession.CreateRoomStringFinding follows into the session (MatchingServer/src/controller/room_controller.cpp:37-59).
- Entities, response shapers and the `main` files contain no logic and are not part of this model.
- MatchingSession.ControllerVerdict, for a successful created room, does not model the members `roomId`, `roomName`, `maxPlayers` and `port` that reading them through `operator[]` adds as null when missing, nor an exception of the port conversion, which is caught there and leaves the response to be written back (MatchingServer/src/core/session.cpp:291-314). `getMirrorSession` is not declared in the matching server's server header; whether it finds the mirror is the parameter `mirrorFound`.
- Json.Put builds an object for every value; nlohmann throws on a value other than an object or null. Every put here is into a request or a success reply, both objects.
- Ingest.ExtractAll leaves the `"-1/-1"` key out of a copy whose document lacks it, where the source puts that key with a null matrix (indicator/src/main/java/com/smashup/indicator/module/gamerhint/service/impl/GamerHintMatrixService.java:53-54). Generated documents always hold the key.

## Findings

| source | as written | input that shows it | evidently intended | confidence | as-written member | corrected member |
|---|---|---|---|---|---|---|
| indicator/src/main/java/com/smashup/indicator/module/gamerhint/service/impl/GamerHintMatrixSubService.java:60-72 | `haveDocument` tests ids against the regular expression `^` + version, so any version that starts with the asked-for one matches | a store holding only document `12/1/C/3`, asked for version `1` with a latest batch count | match documents whose version field is exactly the version, that is the prefix `version/`; the update then seeds version `1` at batch 1 | not executed | MatrixDocs.HaveDocumentFinding | MatrixDocs.VersionPrefixExact |
| indicator/src/main/java/com/smashup/indicator/module/masterhint/service/impl/MasterHintMatrixService.java:87-91 | `result.getId()!=classCode` compares two boxed `Integer`s by identity, which agrees with value equality only inside the `Integer` cache (-128..127) | one C document of class 200 whose diagonal counts one pick: class 200's pick count stays 0 | compare the class codes by value | not executed | ClassRebalance.BoxedIdFinding | ClassRebalance.RebalanceClassAt |
| MatchingServer/src/repository/user_repository.cpp:41 | the row's `last_login` is read with `as<std::string>()` and no NULL check; on NULL pqxx throws, and the catch answers `userId` -1 | register a fresh name, then log in with it: the new row's `last_login` is NULL, so login answers "Invalid username" and a second registration under the name passes the duplicate check | read NULL as a missing login time, as the game socket server's lookup does (GameSocketServer/src/repository/user_repository.cpp:79-81) | not executed | Auth.FreshUserUnreadable | Auth.RegisterThenLogin |
| MatchingServer/src/controller/room_controller.cpp:41-44 | `handleCreateRoom` returns `response.dump()` from a function returning `nlohmann::json`, so the session receives a JSON string; `response["status"]` on a string throws, and the session's catch answers "Invalid request format" after the room row has been written | any `createRoom` request of a logged-in user that the room service accepts | return the service's object, so that the session reads its status and broadcasts the new room to its mirror server | not executed | MatchingSession.CreateRoomStringFinding | MatchingSession.CreateRoomObjectReply |
| MatchingServer/src/service/game_service.cpp:67-71 | `!gameRepo_->endGame(...)` treats any non-zero answer as success, but the repository answers -1 for a game it cannot end | an `endGame` request for a game id the database does not hold | read -1 as the failure answer and reply "Failed to game end update" | not executed | GameService.EndGameFinding | GameService.EndGameReply |
