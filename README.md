# Verified model of the tutorial's data structures and stream transforms

The repository is a collection of Java teaching demos on multithreading and
on the Java 8 Stream API. Under the locks and the printing, a handful of them
hold small data structures and list, string and arithmetic transforms with
precise sequential behaviour. This project models those in Dafny and proves
what the demos promise about them.

- **Bounded ring buffers.** There are two of them.
  - `ProducerConsumerWithCondition` is modelled as `ProducerConsumer.ConditionBuffer`. It has blocking and non-blocking produce and consume, plus produced/consumed totals.
  - `MultipleConditionsDemo` is modelled as `MultipleConditions.ModeGatedBuffer`. It adds read and write modes that gate `take` and `put`.
  - Each critical section is one atomic method on a class over an array.
  - A `while (...) await()` guard becomes an enabledness predicate in the method's precondition.
  - The ghost field `Contents` is the FIFO view of the live slots, read from the take index on.
  - Ring positions are computed by `Ring.Slot`.
- **Key-value stores.** There are four of them.
  - The inventory maps of `InventoryManagementDemo` are modelled in `InventoryManagement`. The pure rules are `Restocked` and `Decreased`. The `Inventory` class models the plain variant, and `ConcurrentInventory` models the compare-and-set retry loop.
  - The size-bounded, counting cache of `ThreadSafeCacheWithLock` is modelled in `LockedCache`.
  - The copy-on-write get-or-load cache of chapter 6 is modelled in `CopyOnWriteCache`.
  - The expiring cache of `DaemonThreadCacheCleanerDemo` is modelled in `TtlCache`, with the clock as a parameter.
- **Stream transforms.** These are pure functions over sequences, with lemmas.
  - The document analyzer is modelled in `DocumentAnalysis`.
  - The product filter is modelled in `ProductFilter`.
  - The sequences of `AdvancedIterate` are modelled in `AdvancedIterate`.
  - The chunked sum of `ParallelSumDemo` is modelled in `ParallelSum`.
  - The pipeline-equivalence demos are modelled in `ChainedFilters`, `FlatMapOptimization` and `MethodReferenceFilter`.
  - Shared pieces live in their own modules.
    - `Seqs` holds `filter`, `map` and `flatMap` on sequences, and order-preserving subsequence.
    - `JavaStrings` holds `contains`, `startsWith`, `trim` and `split("\\s+")`.
    - `Ring` holds the ring arithmetic, and `Arithmetic` a small multiplication lemma.

Java `null` is `Option.None`. Java `double` prices and ratings are `real`. A Java `String` is a `seq<char>`, one element per code point.

## Model

| member | source | states |
|---|---|---|
| ProducerConsumer.ConditionBuffer.constructor | java-multithreading-tutorial/src/main/java/org/devlive/tutorial/multithreading/chapter09/ProducerConsumerWithCondition.java:29-33 | a new buffer of the given capacity is empty, both indices and both totals are 0, and the buffer invariant holds |
| ProducerConsumer.ConditionBuffer.Produce | java-multithreading-tutorial/src/main/java/org/devlive/tutorial/multithreading/chapter09/ProducerConsumerWithCondition.java:38-64 | only when `count < capacity`: appends the item to the FIFO contents, advances putIndex modulo capacity, count and totalProduced grow by one; keeps `count <= capacity`, `putIndex == (takeIndex + count) % capacity`, null free slots and `totalProduced - totalConsumed == count` |
| ProducerConsumer.ConditionBuffer.Consume | java-multithreading-tutorial/src/main/java/org/devlive/tutorial/multithreading/chapter09/ProducerConsumerWithCondition.java:69-98 | only when `count > 0`: returns the oldest item and drops it from the contents, nulls the slot it read, advances takeIndex modulo capacity, count shrinks and totalConsumed grows by one; keeps the buffer invariant |
| ProducerConsumer.ConditionBuffer.TryProduce | java-multithreading-tutorial/src/main/java/org/devlive/tutorial/multithreading/chapter09/ProducerConsumerWithCondition.java:103-122 | true exactly when there was room, with the effect of produce; false on a full buffer with the whole state unchanged |
| ProducerConsumer.ConditionBuffer.TryConsume | java-multithreading-tutorial/src/main/java/org/devlive/tutorial/multithreading/chapter09/ProducerConsumerWithCondition.java:137-157 | the oldest item exactly when the buffer was non-empty, with the effect of consume; null on an empty buffer with the whole state unchanged |
| ProducerConsumer.ProduceConsumeRoundTrip | java-multithreading-tutorial/src/main/java/org/devlive/tutorial/multithreading/chapter09/ProducerConsumerWithCondition.java:50-53 | producing x into an empty buffer and then consuming returns x and leaves count at 0 |
| ProducerConsumer.ProduceTwoConsumeTwo | java-multithreading-tutorial/src/main/java/org/devlive/tutorial/multithreading/chapter09/ProducerConsumerWithCondition.java:81-85 | two items produced are consumed in production order |
| MultipleConditions.ModeGatedBuffer.constructor | java-multithreading-tutorial/src/main/java/org/devlive/tutorial/multithreading/chapter09/MultipleConditionsDemo.java:21-34 | the initial pool is empty with both indices 0 and both read and write mode enabled |
| MultipleConditions.ModeGatedBuffer.Put | java-multithreading-tutorial/src/main/java/org/devlive/tutorial/multithreading/chapter09/MultipleConditionsDemo.java:39-70 | only when `count < capacity && writeMode`: appends the value to the FIFO contents and advances putIndex; both modes unchanged; keeps the count bound and the index relation |
| MultipleConditions.ModeGatedBuffer.Take | java-multithreading-tutorial/src/main/java/org/devlive/tutorial/multithreading/chapter09/MultipleConditionsDemo.java:75-108 | only when `count > 0 && readMode`: returns the oldest value and removes it, advances takeIndex; both modes unchanged; keeps the buffer invariant |
| MultipleConditions.ModeGatedBuffer.DisableReadMode | java-multithreading-tutorial/src/main/java/org/devlive/tutorial/multithreading/chapter09/MultipleConditionsDemo.java:113-123 | clears readMode only, so take is disabled while put's enabledness, the contents, indices and count are unchanged |
| MultipleConditions.ModeGatedBuffer.EnableReadMode | java-multithreading-tutorial/src/main/java/org/devlive/tutorial/multithreading/chapter09/MultipleConditionsDemo.java:128-139 | sets readMode only, so take is enabled exactly when count > 0 and nothing else changes; calling it again changes nothing |
| MultipleConditions.ModeGatedBuffer.DisableWriteMode | java-multithreading-tutorial/src/main/java/org/devlive/tutorial/multithreading/chapter09/MultipleConditionsDemo.java:144-154 | clears writeMode only, so put is disabled while take's enabledness and the buffered data are unchanged |
| MultipleConditions.ModeGatedBuffer.EnableWriteMode | java-multithreading-tutorial/src/main/java/org/devlive/tutorial/multithreading/chapter09/MultipleConditionsDemo.java:159-170 | sets writeMode only, so put is enabled exactly when count < capacity and nothing else changes |
| MultipleConditions.SuspendReadsThenTake | java-multithreading-tutorial/src/main/java/org/devlive/tutorial/multithreading/chapter09/MultipleConditionsDemo.java:113-139 | disabling then re-enabling reads (twice) restores readMode and leaves the buffer intact, so the next take returns the first value put |
| InventoryManagement.Restocked | java-multithreading-tutorial/src/main/java/org/devlive/tutorial/multithreading/chapter04/InventoryManagementDemo.java:180-189 | an absent product gets stock `quantity`, a present one gains `quantity`; every other product's stock is unchanged |
| InventoryManagement.Decreased | java-multithreading-tutorial/src/main/java/org/devlive/tutorial/multithreading/chapter04/InventoryManagementDemo.java:192-200 | succeeds exactly when the product is known and its stock is at least `quantity`; failure changes nothing; success subtracts exactly `quantity`, leaves a non-negative stock and leaves every other product unchanged |
| InventoryManagement.StockStaysNonNegative | java-multithreading-tutorial/src/main/java/org/devlive/tutorial/multithreading/chapter04/InventoryManagementDemo.java:192-200 | decreases, and restocks by a non-negative amount, keep every stock non-negative |
| InventoryManagement.Inventory.constructor | java-multithreading-tutorial/src/main/java/org/devlive/tutorial/multithreading/chapter04/InventoryManagementDemo.java:177 | a new inventory holds no product |
| InventoryManagement.Inventory.UpdateStock | java-multithreading-tutorial/src/main/java/org/devlive/tutorial/multithreading/chapter04/InventoryManagementDemo.java:180-189 | the stock map becomes `Restocked` of the old one |
| InventoryManagement.Inventory.DecreaseStock | java-multithreading-tutorial/src/main/java/org/devlive/tutorial/multithreading/chapter04/InventoryManagementDemo.java:192-200 | result and new map are those of `Decreased` |
| InventoryManagement.Inventory.GetStock | java-multithreading-tutorial/src/main/java/org/devlive/tutorial/multithreading/chapter04/InventoryManagementDemo.java:203-206 | the recorded stock, 0 for an unknown product |
| InventoryManagement.Inventory.GetAllStock | java-multithreading-tutorial/src/main/java/org/devlive/tutorial/multithreading/chapter04/InventoryManagementDemo.java:209-212 | a map equal to the current stock map |
| InventoryManagement.ConcurrentInventory.constructor | java-multithreading-tutorial/src/main/java/org/devlive/tutorial/multithreading/chapter04/InventoryManagementDemo.java:259 | a new concurrent inventory holds no counter |
| InventoryManagement.ConcurrentInventory.CompareAndSet | java-multithreading-tutorial/src/main/java/org/devlive/tutorial/multithreading/chapter04/InventoryManagementDemo.java:282 | swaps in the new value exactly when the counter holds the expected one |
| InventoryManagement.ConcurrentInventory.UpdateStock | java-multithreading-tutorial/src/main/java/org/devlive/tutorial/multithreading/chapter04/InventoryManagementDemo.java:262-266 | `computeIfAbsent(0).addAndGet` has the same effect as `Restocked` |
| InventoryManagement.ConcurrentInventory.DecreaseStock | java-multithreading-tutorial/src/main/java/org/devlive/tutorial/multithreading/chapter04/InventoryManagementDemo.java:269-284 | the compare-and-set retry loop, for a single caller, gives the same result and new map as `Decreased`, that is, as the plain variant |
| InventoryManagement.ConcurrentInventory.GetStock | java-multithreading-tutorial/src/main/java/org/devlive/tutorial/multithreading/chapter04/InventoryManagementDemo.java:287-291 | the counter's value, 0 for an unknown product |
| InventoryManagement.ConcurrentInventory.GetAllStock | java-multithreading-tutorial/src/main/java/org/devlive/tutorial/multithreading/chapter04/InventoryManagementDemo.java:294-299 | copying the counters one by one yields a map equal to the current stock |
| LockedCache.SizeBound | java-multithreading-tutorial/src/main/java/org/devlive/tutorial/multithreading/chapter08/ThreadSafeCacheWithLock.java:50-54 | the bound the cache keeps: at least 1, and exactly maxSize when maxSize >= 1 |
| LockedCache.Lookup | java-multithreading-tutorial/src/main/java/org/devlive/tutorial/multithreading/chapter08/ThreadSafeCacheWithLock.java:77 | a value exactly when the key is present, and then the stored one |
| LockedCache.ThreadSafeCache.constructor | java-multithreading-tutorial/src/main/java/org/devlive/tutorial/multithreading/chapter08/ThreadSafeCacheWithLock.java:34-37 | an empty cache with all three counters at 0 |
| LockedCache.ThreadSafeCache.Put | java-multithreading-tutorial/src/main/java/org/devlive/tutorial/multithreading/chapter08/ThreadSafeCacheWithLock.java:45-65 | afterwards the key maps to the value; updating a present key or inserting below the limit evicts nothing and keeps every other entry; a new key at the limit replaces exactly one present key and adds one to evictionCount; the size stays within `SizeBound(maxSize)`; hit and miss counters unchanged |
| LockedCache.ThreadSafeCache.EvictLRU | java-multithreading-tutorial/src/main/java/org/devlive/tutorial/multithreading/chapter08/ThreadSafeCacheWithLock.java:229-238 | on a non-empty cache removes exactly one present key and counts it; on an empty one does nothing |
| LockedCache.ThreadSafeCache.Get | java-multithreading-tutorial/src/main/java/org/devlive/tutorial/multithreading/chapter08/ThreadSafeCacheWithLock.java:73-91 | returns the stored value exactly when the key is present; a hit increments only hitCount, a miss only missCount; the entries are unchanged |
| LockedCache.ThreadSafeCache.Remove | java-multithreading-tutorial/src/main/java/org/devlive/tutorial/multithreading/chapter08/ThreadSafeCacheWithLock.java:99-112 | returns the previous value (null when absent); afterwards the key is absent and every other entry is kept; counters unchanged |
| LockedCache.ThreadSafeCache.Size | java-multithreading-tutorial/src/main/java/org/devlive/tutorial/multithreading/chapter08/ThreadSafeCacheWithLock.java:119-128 | the number of entries |
| LockedCache.ThreadSafeCache.Clear | java-multithreading-tutorial/src/main/java/org/devlive/tutorial/multithreading/chapter08/ThreadSafeCacheWithLock.java:133-143 | empties the map and keeps the hit, miss and eviction counters |
| LockedCache.ThreadSafeCache.GetSnapshot | java-multithreading-tutorial/src/main/java/org/devlive/tutorial/multithreading/chapter08/ThreadSafeCacheWithLock.java:150-159 | a map equal to the current entries |
| LockedCache.PutThenGet | java-multithreading-tutorial/src/main/java/org/devlive/tutorial/multithreading/chapter08/ThreadSafeCacheWithLock.java:54 | a get right after put(k, v) is a hit returning v |
| CopyOnWriteCache.LoadFromDB | java-multithreading-tutorial/src/main/java/org/devlive/tutorial/multithreading/chapter06/SimpleCache.java:13-24 | the loaded value is "Data for " followed by the key |
| CopyOnWriteCache.GetOrLoad | java-multithreading-tutorial/src/main/java/org/devlive/tutorial/multithreading/chapter06/SimpleCache.java:27-46 | a hit returns the cached value and keeps the map; a miss returns the loaded value and publishes a map that also holds it; every existing entry is kept and the key is present afterwards |
| CopyOnWriteCache.GetIsIdempotent | java-multithreading-tutorial/src/main/java/org/devlive/tutorial/multithreading/chapter06/SimpleCache.java:27-46 | a second get of the same key returns the same value and changes nothing |
| CopyOnWriteCache.Cache.constructor | java-multithreading-tutorial/src/main/java/org/devlive/tutorial/multithreading/chapter06/SimpleCache.java:10 | the cache starts as an empty map |
| CopyOnWriteCache.Cache.Get | java-multithreading-tutorial/src/main/java/org/devlive/tutorial/multithreading/chapter06/SimpleCache.java:27-46 | the value and the new map are those of `GetOrLoad` |
| CopyOnWriteCache.Cache.Put | java-multithreading-tutorial/src/main/java/org/devlive/tutorial/multithreading/chapter06/SimpleCache.java:49-56 | the new map is the old one with the key mapped to the value |
| CopyOnWriteCache.Cache.Clear | java-multithreading-tutorial/src/main/java/org/devlive/tutorial/multithreading/chapter06/SimpleCache.java:59-64 | the map becomes empty |
| CopyOnWriteCache.PutGetClearGet | java-multithreading-tutorial/src/main/java/org/devlive/tutorial/multithreading/chapter06/SimpleCache.java:49-64 | after put(k, v) a get returns v; after clear a get reloads "Data for " + k and stores it alone |
| TtlCache.NewItem | java-multithreading-tutorial/src/main/java/org/devlive/tutorial/multithreading/chapter03/DaemonThreadCacheCleanerDemo.java:111-115 | the item expires ttl milliseconds after its creation time |
| TtlCache.IsExpired | java-multithreading-tutorial/src/main/java/org/devlive/tutorial/multithreading/chapter03/DaemonThreadCacheCleanerDemo.java:117-120 | a predicate without a contract of its own: an item is expired only strictly after its expiry time, so it is still live at that instant; `LiveEntries`, `ExpiredKeys` and `ExpiringCache.Get` state their results in terms of it |
| TtlCache.LiveEntries | java-multithreading-tutorial/src/main/java/org/devlive/tutorial/multithreading/chapter03/DaemonThreadCacheCleanerDemo.java:85-90 | exactly the unexpired entries, unchanged |
| TtlCache.ExpiredKeys | java-multithreading-tutorial/src/main/java/org/devlive/tutorial/multithreading/chapter03/DaemonThreadCacheCleanerDemo.java:85-90 | exactly the keys whose entries have expired |
| TtlCache.SweepPartition | java-multithreading-tutorial/src/main/java/org/devlive/tutorial/multithreading/chapter03/DaemonThreadCacheCleanerDemo.java:83-92 | the kept and the removed entries together account for the whole cache |
| TtlCache.ExpiringCache.constructor | java-multithreading-tutorial/src/main/java/org/devlive/tutorial/multithreading/chapter03/DaemonThreadCacheCleanerDemo.java:42 | the cache starts with no entries |
| TtlCache.ExpiringCache.Put | java-multithreading-tutorial/src/main/java/org/devlive/tutorial/multithreading/chapter03/DaemonThreadCacheCleanerDemo.java:45-49 | the key maps to an item expiring at `now + ttl`, replacing any earlier one; every other entry is kept |
| TtlCache.ExpiringCache.Get | java-multithreading-tutorial/src/main/java/org/devlive/tutorial/multithreading/chapter03/DaemonThreadCacheCleanerDemo.java:52-63 | null with no change for an absent key; null and removal of that key only for an entry with `now > expireTime`; the data with no change for a live entry |
| TtlCache.ExpiringCache.Size | java-multithreading-tutorial/src/main/java/org/devlive/tutorial/multithreading/chapter03/DaemonThreadCacheCleanerDemo.java:66-69 | the number of entries |
| TtlCache.ExpiringCache.Sweep | java-multithreading-tutorial/src/main/java/org/devlive/tutorial/multithreading/chapter03/DaemonThreadCacheCleanerDemo.java:83-92 | one cleaner pass removes exactly the expired entries and keeps the rest; the reported count equals size before minus size after |
| ParallelSum.RangeSumClosedForm | java-multithreading-tutorial/src/main/java/org/devlive/tutorial/multithreading/chapter03/ParallelSumDemo.java:44 | the sum 1 + ... + m is m(m+1)/2 |
| ParallelSum.RangeSumSplit | java-multithreading-tutorial/src/main/java/org/devlive/tutorial/multithreading/chapter03/ParallelSumDemo.java:23-27 | a range sum splits at any middle point into the sums of the two parts |
| ParallelSum.ChunksTile | java-multithreading-tutorial/src/main/java/org/devlive/tutorial/multithreading/chapter03/ParallelSumDemo.java:18-20 | chunk 0 starts at 1, the last chunk ends at n, each chunk ends just before the next starts, every non-last chunk has n/k elements and the last n-(k-1)(n/k) |
| ParallelSum.ChunkOrder | java-multithreading-tutorial/src/main/java/org/devlive/tutorial/multithreading/chapter03/ParallelSumDemo.java:19-20 | an earlier chunk ends before a later one starts |
| ParallelSum.ChunksWithinRange | java-multithreading-tutorial/src/main/java/org/devlive/tutorial/multithreading/chapter03/ParallelSumDemo.java:19-20 | every number in a chunk lies in 1..n |
| ParallelSum.ChunksDisjoint | java-multithreading-tutorial/src/main/java/org/devlive/tutorial/multithreading/chapter03/ParallelSumDemo.java:18-20 | no number lies in two chunks |
| ParallelSum.CoveredBy | java-multithreading-tutorial/src/main/java/org/devlive/tutorial/multithreading/chapter03/ParallelSumDemo.java:18-20 | a number up to the end of the first c chunks lies in one of them |
| ParallelSum.ChunksCover | java-multithreading-tutorial/src/main/java/org/devlive/tutorial/multithreading/chapter03/ParallelSumDemo.java:18-20 | every number in 1..n lies in some chunk |
| ParallelSum.PartialSum | java-multithreading-tutorial/src/main/java/org/devlive/tutorial/multithreading/chapter03/ParallelSumDemo.java:23-26 | the loop computes the sum of start..end |
| ParallelSum.ParallelSum | java-multithreading-tutorial/src/main/java/org/devlive/tutorial/multithreading/chapter03/ParallelSumDemo.java:12-46 | the partial sums of all chunks add up to n(n+1)/2, the expected sum |
| AdvancedIterate.IsPrime | java8-stream-tutorial/src/main/java/org/devlive/tutorial/stream/chapter03/AdvancedIterate.java:34-45 | true exactly when n is prime; false below 2 |
| AdvancedIterate.NoDivisorAboveRoot | java8-stream-tutorial/src/main/java/org/devlive/tutorial/stream/chapter03/AdvancedIterate.java:39-44 | a number with no divisor d where d*d <= n has no proper divisor at all, which is why the loop may stop at the square root |
| AdvancedIterate.IterateLimit | java8-stream-tutorial/src/main/java/org/devlive/tutorial/stream/chapter03/AdvancedIterate.java:13-14 | `iterate(seed, f).limit(count)` has exactly count elements |
| AdvancedIterate.IterateLimitElements | java8-stream-tutorial/src/main/java/org/devlive/tutorial/stream/chapter03/AdvancedIterate.java:13-14 | its k-th element is f applied k times to the seed |
| AdvancedIterate.FibonacciSequence | java8-stream-tutorial/src/main/java/org/devlive/tutorial/stream/chapter03/AdvancedIterate.java:13-16 | no contract of its own; `AdvancedIterate.FibonacciSequenceMeaning` proves it has the requested length and that its k-th element is F(k) |
| AdvancedIterate.TriangularSequence | java8-stream-tutorial/src/main/java/org/devlive/tutorial/stream/chapter03/AdvancedIterate.java:20-23 | no contract of its own; `AdvancedIterate.TriangularSequenceMeaning` proves it has the requested length and that its k-th element is (k+1)(k+2)/2 |
| AdvancedIterate.PrimesAmongCandidates | java8-stream-tutorial/src/main/java/org/devlive/tutorial/stream/chapter03/AdvancedIterate.java:27-29 | no contract of its own; `AdvancedIterate.PrimeStreamMeaning` proves it is exactly the primes below count + 2, in increasing order |
| AdvancedIterate.FibonacciPairs | java8-stream-tutorial/src/main/java/org/devlive/tutorial/stream/chapter03/AdvancedIterate.java:13 | the k-th pair is (F(k), F(k+1)) with F(0) = 0 and F(1) = 1 |
| AdvancedIterate.FibonacciSequenceMeaning | java8-stream-tutorial/src/main/java/org/devlive/tutorial/stream/chapter03/AdvancedIterate.java:13-16 | the printed sequence has the requested length and its k-th element is F(k) |
| AdvancedIterate.TrianglePairs | java8-stream-tutorial/src/main/java/org/devlive/tutorial/stream/chapter03/AdvancedIterate.java:20 | the k-th pair is (k+1, (k+1)(k+2)/2) |
| AdvancedIterate.TriangularSequenceMeaning | java8-stream-tutorial/src/main/java/org/devlive/tutorial/stream/chapter03/AdvancedIterate.java:20-23 | the printed sequence has the requested length and its k-th element is (k+1)(k+2)/2 |
| AdvancedIterate.CandidatesElements | java8-stream-tutorial/src/main/java/org/devlive/tutorial/stream/chapter03/AdvancedIterate.java:27 | the k-th candidate of `iterate(2, n -> n + 1)` is k + 2 |
| AdvancedIterate.FilterKeepsIncreasing | java8-stream-tutorial/src/main/java/org/devlive/tutorial/stream/chapter03/AdvancedIterate.java:28 | filtering a strictly increasing sequence keeps it strictly increasing |
| AdvancedIterate.PrimeStreamMeaning | java8-stream-tutorial/src/main/java/org/devlive/tutorial/stream/chapter03/AdvancedIterate.java:27-30 | reading count candidates emits exactly the primes below count + 2, in strictly increasing order, and reading more candidates only extends the output |
| DocumentAnalysis.ExtractedWordsAreClean | java8-stream-tutorial/src/main/java/org/devlive/tutorial/stream/chapter07/DocumentAnalysisSystem.java:65-66 | every extracted word is non-empty and made only of a-z, A-Z and U+4E00..U+9FA5 |
| DocumentAnalysis.ExtractAllWords | java8-stream-tutorial/src/main/java/org/devlive/tutorial/stream/chapter07/DocumentAnalysisSystem.java:61-68 | no contract of its own; `DocumentAnalysis.ExtractedWordsAreClean` proves its words clean and non-empty, `DocumentAnalysis.WordsInDocumentOrder` proves their order |
| DocumentAnalysis.ParagraphOrder | java8-stream-tutorial/src/main/java/org/devlive/tutorial/stream/chapter07/DocumentAnalysisSystem.java:64-66 | the words of a list of paragraphs are the words of each paragraph in turn |
| DocumentAnalysis.WordsInDocumentOrder | java8-stream-tutorial/src/main/java/org/devlive/tutorial/stream/chapter07/DocumentAnalysisSystem.java:61-68 | the extracted words come document by document, then paragraph by paragraph, then token by token |
| DocumentAnalysis.WordFrequency | java8-stream-tutorial/src/main/java/org/devlive/tutorial/stream/chapter07/DocumentAnalysisSystem.java:72-76 | the keys are exactly the words that occur, and each count is that word's number of occurrences, at least 1 |
| DocumentAnalysis.CountsSumToLength | java8-stream-tutorial/src/main/java/org/devlive/tutorial/stream/chapter07/DocumentAnalysisSystem.java:72-76 | the counts add up to the number of words |
| DocumentAnalysis.WordFrequencyMeaning | java8-stream-tutorial/src/main/java/org/devlive/tutorial/stream/chapter07/DocumentAnalysisSystem.java:71-77 | analyzeWordFrequency counts every extracted word, each by its number of occurrences, and the counts sum to the number of extracted words |
| DocumentAnalysis.AnalyzeWordFrequency | java8-stream-tutorial/src/main/java/org/devlive/tutorial/stream/chapter07/DocumentAnalysisSystem.java:71-77 | no contract of its own; `DocumentAnalysis.WordFrequencyMeaning` proves each count is the number of occurrences of its word among the extracted words, and that the counts sum to their number |
| DocumentAnalysis.FindDocumentsMeaning | java8-stream-tutorial/src/main/java/org/devlive/tutorial/stream/chapter07/DocumentAnalysisSystem.java:80-86 | a document is selected exactly when some paragraph contains the keyword as a substring; the titles come in input order |
| DocumentAnalysis.FindDocumentsContaining | java8-stream-tutorial/src/main/java/org/devlive/tutorial/stream/chapter07/DocumentAnalysisSystem.java:80-86 | no contract of its own; `DocumentAnalysis.FindDocumentsMeaning` proves which documents it selects and that their titles keep input order |
| DocumentAnalysis.ExcerptMeaning | java8-stream-tutorial/src/main/java/org/devlive/tutorial/stream/chapter07/DocumentAnalysisSystem.java:101-102 | a first sentence of at most 20 characters is kept whole; a longer one becomes its first 20 characters followed by "..." |
| DocumentAnalysis.CleanWordsAtMostTokens | java8-stream-tutorial/src/main/java/org/devlive/tutorial/stream/chapter07/DocumentAnalysisSystem.java:92-94 | cleaning never yields more words than there are tokens |
| DocumentAnalysis.SummariesMeaning | java8-stream-tutorial/src/main/java/org/devlive/tutorial/stream/chapter07/DocumentAnalysisSystem.java:89-105 | one summary per document, in order, carrying its title, the raw whitespace-token count (never below the cleaned word count) and the excerpt of its first paragraph, or "" when it has none |
| DocumentAnalysis.GenerateDocumentSummaries | java8-stream-tutorial/src/main/java/org/devlive/tutorial/stream/chapter07/DocumentAnalysisSystem.java:89-105 | no contract of its own; `DocumentAnalysis.SummariesMeaning` proves one summary per document with its title, raw token count and excerpt |
| JavaStrings.EmptyStringTokens | java8-stream-tutorial/src/main/java/org/devlive/tutorial/stream/chapter07/DocumentAnalysisSystem.java:93 | an empty paragraph splits into one empty token, so it counts as one word |
| JavaStrings.LeadingBlankTokens | java8-stream-tutorial/src/main/java/org/devlive/tutorial/stream/chapter07/DocumentAnalysisSystem.java:93 | a paragraph that starts with whitespace and has some other character yields an empty first token, which counts as a word, followed by at least one more token |
| JavaStrings.TrailingBlankTokens | java8-stream-tutorial/src/main/java/org/devlive/tutorial/stream/chapter07/DocumentAnalysisSystem.java:93 | for every non-empty paragraph the last token, if any, is non-empty, so trailing whitespace yields no token |
| JavaStrings.BlankTokens | java8-stream-tutorial/src/main/java/org/devlive/tutorial/stream/chapter07/DocumentAnalysisSystem.java:93 | a non-empty paragraph yields no token at all exactly when it is all whitespace |
| JavaStrings.SplitOnSpaces | java8-stream-tutorial/src/main/java/org/devlive/tutorial/stream/chapter07/DocumentAnalysisSystem.java:64 | no token contains a whitespace character |
| JavaStrings.SplitOnSpacesMeaning | java8-stream-tutorial/src/main/java/org/devlive/tutorial/stream/chapter07/DocumentAnalysisSystem.java:64 | splitting loses only the whitespace: the tokens joined are the non-whitespace characters of the paragraph in order, and every token after the first is non-empty |
| JavaStrings.SplitOnSpacesLayout | java8-stream-tutorial/src/main/java/org/devlive/tutorial/stream/chapter07/DocumentAnalysisSystem.java:64 | where the cuts fall: the paragraph is the tokens in order, consecutive tokens separated by a non-empty run of whitespace and the last followed by a possibly empty run of whitespace; with no whitespace inside a token, each token is a maximal stretch without whitespace |
| JavaStrings.SkipSpacesDropsRun | java8-stream-tutorial/src/main/java/org/devlive/tutorial/stream/chapter07/DocumentAnalysisSystem.java:64 | skipping a separator drops only a leading run of whitespace and keeps the rest of the string |
| JavaStrings.FieldsLayout | java8-stream-tutorial/src/main/java/org/devlive/tutorial/stream/chapter07/DocumentAnalysisSystem.java:64 | the fields, glued back with the whitespace runs between them, give back the input |
| JavaStrings.DropTrailingEmptyLayout | java8-stream-tutorial/src/main/java/org/devlive/tutorial/stream/chapter07/DocumentAnalysisSystem.java:64 | removing trailing empty fields moves their whitespace runs into the trailing run and leaves the layout intact |
| JavaStrings.TrimEmpty | java8-stream-tutorial/src/main/java/org/devlive/tutorial/stream/chapter05/MethodReferenceFilter.java:44 | trim() is empty exactly when every character is at most U+0020 |
| ProductFilter.PriceRangeMeaning | java8-stream-tutorial/src/main/java/org/devlive/tutorial/stream/chapter05/ProductFilterSystem.java:54-60 | keeps a product exactly when minPrice <= price <= maxPrice, in input order |
| ProductFilter.FilterByPriceRange | java8-stream-tutorial/src/main/java/org/devlive/tutorial/stream/chapter05/ProductFilterSystem.java:54-60 | no contract of its own; `ProductFilter.PriceRangeMeaning` proves it keeps exactly the products priced within both inclusive bounds, in order |
| ProductFilter.MultipleConditionsMeaning | java8-stream-tutorial/src/main/java/org/devlive/tutorial/stream/chapter05/ProductFilterSystem.java:63-71 | keeps a product exactly when the category matches, the rating is strictly above minRating and the stock flag matches, in input order |
| ProductFilter.FilterByMultipleConditions | java8-stream-tutorial/src/main/java/org/devlive/tutorial/stream/chapter05/ProductFilterSystem.java:63-71 | no contract of its own; `ProductFilter.MultipleConditionsMeaning` proves it keeps exactly the products of the category, rated strictly above minRating and with the given stock flag, in order |
| ProductFilter.FilterByCriteria | java8-stream-tutorial/src/main/java/org/devlive/tutorial/stream/chapter05/ProductFilterSystem.java:74-97 | the predicate built up criterion by criterion filters exactly as `Matches` does |
| ProductFilter.CriteriaMeaning | java8-stream-tutorial/src/main/java/org/devlive/tutorial/stream/chapter05/ProductFilterSystem.java:78-96 | keeps a product exactly when it meets every non-null criterion (rating compared with >=), in input order |
| ProductFilter.NoCriteriaKeepsAll | java8-stream-tutorial/src/main/java/org/devlive/tutorial/stream/chapter05/ProductFilterSystem.java:76 | with every criterion null the input comes back unchanged |
| ProductFilter.MoreCriteriaShrink | java8-stream-tutorial/src/main/java/org/devlive/tutorial/stream/chapter05/ProductFilterSystem.java:78-92 | setting more criteria yields a subsequence of the result with fewer |
| ProductFilter.PriceCriteriaEqualPriceRange | java8-stream-tutorial/src/main/java/org/devlive/tutorial/stream/chapter05/ProductFilterSystem.java:81-86 | criteria with only minPrice and maxPrice give the same list as filterByPriceRange |
| ChainedFilters.ChainedEqualsSingle | java8-stream-tutorial/src/main/java/org/devlive/tutorial/stream/chapter05/ChainedFilters.java:17-28 | the three chained filters and the single combined filter give the same list |
| ChainedFilters.SingleFilter | java8-stream-tutorial/src/main/java/org/devlive/tutorial/stream/chapter05/ChainedFilters.java:17-19 | no contract of its own; `ChainedFilters.ChainedEqualsSingle` proves it equals the chained pipeline |
| ChainedFilters.ChainedFilter | java8-stream-tutorial/src/main/java/org/devlive/tutorial/stream/chapter05/ChainedFilters.java:24-28 | no contract of its own; `ChainedFilters.SelectionMeaning` proves which words it keeps and that it keeps their order |
| ChainedFilters.PeekedEqualsChained | java8-stream-tutorial/src/main/java/org/devlive/tutorial/stream/chapter05/ChainedFilters.java:33-40 | the peek-instrumented pipeline yields the chained-filter result |
| ChainedFilters.PeekedPipeline | java8-stream-tutorial/src/main/java/org/devlive/tutorial/stream/chapter05/ChainedFilters.java:33-40 | no contract of its own; `ChainedFilters.PeekedEqualsChained` proves it yields the chained-filter result |
| ChainedFilters.SelectionMeaning | java8-stream-tutorial/src/main/java/org/devlive/tutorial/stream/chapter05/ChainedFilters.java:24-28 | a word is kept exactly when it is longer than 4, contains 'e' and does not start with 'e'; the result preserves input order |
| FlatMapOptimization.PipelinesAgree | java8-stream-tutorial/src/main/java/org/devlive/tutorial/stream/chapter07/FlatMapOptimization.java:21-34 | flatten-then-filter and filter-inside-flatMap give the same list |
| FlatMapOptimization.FlattenThenFilter | java8-stream-tutorial/src/main/java/org/devlive/tutorial/stream/chapter07/FlatMapOptimization.java:21-25 | no contract of its own; `FlatMapOptimization.ResultMeaning` proves its elements, order and multiplicities |
| FlatMapOptimization.FilterInsideFlatMap | java8-stream-tutorial/src/main/java/org/devlive/tutorial/stream/chapter07/FlatMapOptimization.java:30-34 | no contract of its own; `FlatMapOptimization.PipelinesAgree` proves it equals flatten-then-filter |
| FlatMapOptimization.ResultMeaning | java8-stream-tutorial/src/main/java/org/devlive/tutorial/stream/chapter07/FlatMapOptimization.java:21-25 | every element is above 15 and even, the result preserves the flattened order, and each such element appears as often as in the flattened input |
| MethodReferenceFilter.IsValidMeaning | java8-stream-tutorial/src/main/java/org/devlive/tutorial/stream/chapter05/MethodReferenceFilter.java:42-45 | isValid holds exactly for a non-null string with some character above U+0020; so not for null, "" or blank strings |
| MethodReferenceFilter.IsValid | java8-stream-tutorial/src/main/java/org/devlive/tutorial/stream/chapter05/MethodReferenceFilter.java:42-45 | no contract of its own; `MethodReferenceFilter.IsValidMeaning` proves it holds exactly for a non-null string with a character above U+0020 |
| MethodReferenceFilter.LambdaPipeline | java8-stream-tutorial/src/main/java/org/devlive/tutorial/stream/chapter05/MethodReferenceFilter.java:17-20 | no contract of its own; `MethodReferenceFilter.LambdaEqualsMethodReference` proves it gives the same list as the Objects::nonNull pipeline |
| MethodReferenceFilter.MethodReferencePipeline | java8-stream-tutorial/src/main/java/org/devlive/tutorial/stream/chapter05/MethodReferenceFilter.java:25-28 | no contract of its own; `MethodReferenceFilter.LambdaEqualsMethodReference` proves it gives the same list as the lambda pipeline |
| MethodReferenceFilter.ValidPipeline | java8-stream-tutorial/src/main/java/org/devlive/tutorial/stream/chapter05/MethodReferenceFilter.java:33-35 | no contract of its own; `MethodReferenceFilter.ValidIsSubsequenceOfNonEmpty` proves its result is an order-preserving subsequence of the non-null, non-empty result, and `MethodReferenceFilter.IsValidMeaning` says which strings it keeps |
| MethodReferenceFilter.ValidIsPresentAndNonEmpty | java8-stream-tutorial/src/main/java/org/devlive/tutorial/stream/chapter05/MethodReferenceFilter.java:44 | a valid string is non-null and non-empty |
| MethodReferenceFilter.LambdaEqualsMethodReference | java8-stream-tutorial/src/main/java/org/devlive/tutorial/stream/chapter05/MethodReferenceFilter.java:17-28 | the lambda pipeline and the Objects::nonNull pipeline give the same list |
| MethodReferenceFilter.ValidIsSubsequenceOfNonEmpty | java8-stream-tutorial/src/main/java/org/devlive/tutorial/stream/chapter05/MethodReferenceFilter.java:33-35 | the isValid result is an order-preserving subsequence of the non-null, non-empty result |

## Left out

- Locks, conditions and threads. The model leaves out `ReentrantLock`, `Condition.await`/`signal`/`signalAll`, `synchronized`, thread creation, `join`, `sleep`, interruption and the `main` harnesses. Each critical section is one atomic method. A blocking wait is a precondition that the call is enabled.
- The `tryLock` failure branches are left out because they depend on the scheduler. These are `tryProduce` and `tryConsume` when the lock is busy (ProducerConsumerWithCondition.java:128-131 and 163-166), and `ThreadSafeCacheWithLock.tryGet`. When `tryGet` gets the lock it behaves as `get`, and it is not modelled separately.
- `shutdown` is not modelled: it only wakes the waiting threads with `signalAll`. The code has no closed state, no timed operations and no Closed, Timeout or WouldBlock results. The model follows the code.
- Status printing, `printStatistics`, `showLockInfo`, `peek` printing and all console output are I/O.
- The read-write-lock variants are not modelled separately. `SynchronizedInventory` and `ReadWriteLockInventory` run the same code as `UnsafeInventory` under a lock, and are modelled once, by `InventoryManagement.Inventory`.
- Java integer widths are not modelled. All integers are unbounded, so 32-bit wrap-around of `count`, `totalProduced`, `totalConsumed`, stock quantities, cache counters and triangular numbers is not captured. Neither is 64-bit wrap-around of Fibonacci numbers and the parallel sum.
- ParallelSum.ParallelSum: it generalises the constants n = 1 000 000 000 and 4 threads to any n >= 0 and any thread count >= 1, and runs the chunks one after another.
- The eviction victim of `ThreadSafeCacheWithLock.evictLRU` is whatever key the hash map iterates first, not the least recently used one. LockedCache.ThreadSafeCache.Put and LockedCache.ThreadSafeCache.EvictLRU leave that victim unspecified: it is any present key.
- LockedCache.ThreadSafeCache.Get: a stored `null` value, which Java would count as a miss, is not modelled. Values are never null.
- `null` items, keys and values are not modelled in the buffers and caches.
- A negative capacity is not modelled: the Java array allocation would throw.
- Wall-clock time is the `now` parameter. `TtlCache.ExpiringCache.Sweep` reads one instant for the whole pass, while the daemon thread reads the clock once per entry. The daemon loop, its one-second sleep and the HH:mm:ss formatting are I/O.
- `SimpleCache.loadFromDB`'s 200 ms sleep is left out. So is the second lookup of the double-checked `get`, which sees the same map when run alone.
- Summaries are modelled as the `Summary` value holding title, word count and excerpt. `String.format` rendering is not modelled.
- String lengths are counted in Dafny characters, which equal Java UTF-16 units only for text inside the Basic Multilingual Plane.
- The regular expressions are modelled explicitly. `split("\\s+")` is tokenisation at runs of space, tab, newline, U+000B, form feed and carriage return, dropping trailing empty fields. `replaceAll` is a character filter.
- `Math.sqrt` in `isPrime` is replaced by the equivalent integer test `i * i <= n`.
- Product prices and ratings are `real`. Floating-point rounding, NaN and negative zero are not modelled, and neither is `Product.toString`.
- The values of the chapter 6 cache are `Object` in the code. The model fixes them to `string`, which is what `loadFromDB` returns.
- Null product fields and null filter arguments are not modelled. For example, `filterByMultipleConditions` with a null `category` would throw `NullPointerException` in `category.equals`. Only the criteria of `filterByCriteria` may be null, and those are `Option` values.
