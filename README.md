# TinkerPop core: index, aggregate step, graph-computer submission, sequence-file iteration, strategy identity

A Dafny model of six pieces of the TinkerPop graph engine, with proofs of what each one promises:

- **TinkerIndex** (`tinker_index.dfy`): the TinkerGraph property index. It maps a property key to a property value to a set of elements. It supports `put`, `get`, `count`, `remove`, the whole-index `removeElement`, and the automatic maintenance (`autoUpdate`, `autoRemove`) of the keys marked by `createKeyIndex`. It also has `dropKeyIndex` and `getIndexedKeys`. The index is a class whose nested map is a `map` field that the methods reassign. Each state-changing method is proved equal to a pure function of the old index (`Inserted`, `Removed`, `Evicted`, …), and those functions' contracts and lemmas state the bucket-level behaviour. `get` returns its bucket's elements in an unspecified order, so its contract says instead that it lists each element of the bucket exactly once.
- **AggregateStep** (`aggregate_step.dfy`): the aggregate side-effect step. One pull drains the upstream traversers completely. For each one it appends `bulkCount` (possibly pre-aggregated) values to a shared aggregate collection and queues `bulkCount` siblings. Then it emits the oldest queued sibling, or signals exhaustion when none is left. The aggregate collection is an object shared with the traversal memory or with a vertex's hidden properties, so the aliasing of the source is kept.
- **Graph-computer submission** (`graph_computer.dfy`, `hadoop_graph_computer.dfy`, `spark_graph_computer.dfy`): two one-shot state machines.
  - The Hadoop computer's `validateStatePriorToExecution` checks, in order: not yet executed, a program or a job, a valid program. It then adds the program's jobs, fills in the persistence and result-graph defaults, and checks the combination against the output format.
  - The Spark computer's `submit` makes the same first three checks.
  - The constant answers of the Hadoop computer's `features()` are modelled too.
- **ObjectWritableIterator** (`object_writable_iterator.dfy`): an iterator over the key/value pairs of a queue of sequence-file readers. `hasNext` reads one pair ahead into a buffer. Each reader is a sequence of pairs that may end in an I/O failure. The iterator's abstract state, `Remaining()`, is the buffered pair followed by the pairs the queue still yields. It is proved that any interleaving of `hasNext` and `next` returns those pairs in order, each once.
- **AbstractTraversalStrategy** (`traversal_strategy.dfy`): strategies are equal exactly when their run-time classes are equal, and the hash code is the class's hash.

Java exceptions are values: `Outcome`/`Result` in `wrappers.dfy`. A field that may hold `null` is an `Option`. A `null` argument is an `Option` for `equals`, for `autoUpdate`'s old value and for the computers' `isolation`, `result` and `persist`. Null arguments not named here or under "## Left out" are outside the model; its types exclude them.

## Behaviour as written

The model follows the code where it differs from what its method names and the `GraphComputer` interface suggest:

- `removeElement` leaves emptied buckets (and key maps) in place. Only `remove` deletes a bucket it empties. `remove` also deletes an already-empty bucket even when the element was not in it.
- `dropKeyIndex` of a key that has no key map throws a null-pointer exception (the index is unchanged). It does not remove the key from the automatically indexed keys, so later property updates on that key are indexed again.
- `getIndexedKeys` returns the keys that have a key map in the index, not the automatically indexed keys.
- The configuration setters of both computers do not check whether the computer was already submitted.

## Model

| member | source | states |
|---|---|---|
| `TinkerIndexes.TinkerIndex.constructor` | blueprints/blueprints-tinkergraph/src/main/java/com/tinkerpop/blueprints/tinkergraph/TinkerIndex.java:21-29 | A new index is empty and indexes no key automatically. |
| `TinkerIndexes.Inserted` | blueprints/blueprints-tinkergraph/src/main/java/com/tinkerpop/blueprints/tinkergraph/TinkerIndex.java:31-44 | `put` adds the element to bucket (key, value) and creates the key map and the bucket when they are missing. Every other bucket and key map is unchanged. |
| `TinkerIndexes.TinkerIndex.Put` | blueprints/blueprints-tinkergraph/src/main/java/com/tinkerpop/blueprints/tinkergraph/TinkerIndex.java:31-44 | The index after `put` is `Inserted` of the old index. The automatically indexed keys are untouched. |
| `TinkerIndexes.PutPresentKeepsBucket` | blueprints/blueprints-tinkergraph/src/main/java/com/tinkerpop/blueprints/tinkergraph/TinkerIndex.java:37-42 | Re-putting an element already in its bucket leaves the bucket, and so its count, unchanged, because buckets are sets. |
| `TinkerIndexes.TinkerIndex.Get` | blueprints/blueprints-tinkergraph/src/main/java/com/tinkerpop/blueprints/tinkergraph/TinkerIndex.java:46-57 | `get` lists each element of bucket (key, value) exactly once and nothing else. Its length equals `count`. An unknown key or value gives the empty list. |
| `TinkerIndexes.TinkerIndex.Count` | blueprints/blueprints-tinkergraph/src/main/java/com/tinkerpop/blueprints/tinkergraph/TinkerIndex.java:59-70 | `count` is the size of bucket (key, value), and 0 for an unknown key or value. |
| `TinkerIndexes.Removed` | blueprints/blueprints-tinkergraph/src/main/java/com/tinkerpop/blueprints/tinkergraph/TinkerIndex.java:72-83 | `remove` evicts the element from bucket (key, value) only. A bucket left empty is deleted from its key map. An unknown key or value is a no-op. No key map is deleted. |
| `TinkerIndexes.TinkerIndex.Remove` | blueprints/blueprints-tinkergraph/src/main/java/com/tinkerpop/blueprints/tinkergraph/TinkerIndex.java:72-83 | The index after `remove` is `Removed` of the old index. |
| `TinkerIndexes.PutThenRemove` | blueprints/blueprints-tinkergraph/src/main/java/com/tinkerpop/blueprints/tinkergraph/TinkerIndex.java:31-83 | Putting an element into a bucket that lacks it and then removing it restores every bucket. |
| `TinkerIndexes.NameScenario` | blueprints/blueprints-tinkergraph/src/main/java/com/tinkerpop/blueprints/tinkergraph/TinkerIndex.java:31-83 | Three elements under "name" = "a", "b", "a" give count 2 for "a". One removal gives 1. The second removal empties the bucket, which is then gone from the key map while "b" stays. |
| `TinkerIndexes.Evicted` | blueprints/blueprints-tinkergraph/src/main/java/com/tinkerpop/blueprints/tinkergraph/TinkerIndex.java:85-93 | For an element of the index's class, `removeElement` removes it from every bucket of every key. Every other element stays put, and no key map or bucket is deleted. |
| `TinkerIndexes.TinkerIndex.RemoveElement` | blueprints/blueprints-tinkergraph/src/main/java/com/tinkerpop/blueprints/tinkergraph/TinkerIndex.java:85-93 | The nested loops over key maps and buckets leave `Evicted` of the old index when the element's class is assignable to the index class. Otherwise the index is unchanged. |
| `TinkerIndexes.EvictFrom` | blueprints/blueprints-tinkergraph/src/main/java/com/tinkerpop/blueprints/tinkergraph/TinkerIndex.java:88-90 | The inner loop of `removeElement` leaves `EvictedFrom` of one key map: the element leaves every bucket of that key map, and no bucket is deleted. |
| `TinkerIndexes.AutoUpdated` | blueprints/blueprints-tinkergraph/src/main/java/com/tinkerpop/blueprints/tinkergraph/TinkerIndex.java:96-102 | `autoUpdate` is a no-op unless the key is automatically indexed. Otherwise the element joins the bucket of the new value and leaves the bucket of a distinct non-null old value. Other values' buckets and other keys are unchanged. |
| `TinkerIndexes.TinkerIndex.AutoUpdate` | blueprints/blueprints-tinkergraph/src/main/java/com/tinkerpop/blueprints/tinkergraph/TinkerIndex.java:96-102 | The index after `autoUpdate` is `AutoUpdated` of the old one. The removal happens only for a non-null old value. |
| `TinkerIndexes.AutoRemoved` | blueprints/blueprints-tinkergraph/src/main/java/com/tinkerpop/blueprints/tinkergraph/TinkerIndex.java:104-108 | `autoRemove` is a no-op unless the key is automatically indexed. Otherwise it is `remove`, and the element is gone from the old value's bucket. |
| `TinkerIndexes.TinkerIndex.AutoRemove` | blueprints/blueprints-tinkergraph/src/main/java/com/tinkerpop/blueprints/tinkergraph/TinkerIndex.java:104-108 | The index after `autoRemove` is `AutoRemoved` of the old one. |
| `TinkerIndexes.KeyIndexCreated` | blueprints/blueprints-tinkergraph/src/main/java/com/tinkerpop/blueprints/tinkergraph/TinkerIndex.java:110-121 | `createKeyIndex` always leaves the key automatically indexed. For an already indexed key it returns at once, leaving the index unchanged. Otherwise the index becomes `Backfilled`: each given (element, value) pair put under the key in order, standing for `IndexHelper.reIndexElements` at lines 116-120. |
| `TinkerIndexes.CreateKeyIndexIdempotent` | blueprints/blueprints-tinkergraph/src/main/java/com/tinkerpop/blueprints/tinkergraph/TinkerIndex.java:110-114 | Calling `createKeyIndex` twice leaves the same index and indexed keys as calling it once. |
| `TinkerIndexes.BackfillIndexesExisting` | blueprints/blueprints-tinkergraph/src/main/java/com/tinkerpop/blueprints/tinkergraph/TinkerIndex.java:114-120 | After the backfill, bucket (key, v) holds its old elements plus exactly the existing elements whose value for the key is v. So every element's current value is discoverable through `get`. |
| `TinkerIndexes.BackfillKeepsOtherKeys` | blueprints/blueprints-tinkergraph/src/main/java/com/tinkerpop/blueprints/tinkergraph/TinkerIndex.java:114-120 | The backfill for one key leaves every other key's map unchanged. |
| `TinkerIndexes.TinkerIndex.CreateKeyIndex` | blueprints/blueprints-tinkergraph/src/main/java/com/tinkerpop/blueprints/tinkergraph/TinkerIndex.java:110-121 | The loop that puts each existing (element, value) pair leaves exactly `KeyIndexCreated` of the old index and indexed keys. |
| `TinkerIndexes.Dropped` | blueprints/blueprints-tinkergraph/src/main/java/com/tinkerpop/blueprints/tinkergraph/TinkerIndex.java:123-125 | `dropKeyIndex` of a known key removes the key's whole key map, so every lookup on the key is empty. Every other key map is unchanged. |
| `TinkerIndexes.TinkerIndex.DropKeyIndex` | blueprints/blueprints-tinkergraph/src/main/java/com/tinkerpop/blueprints/tinkergraph/TinkerIndex.java:123-125 | Succeeds exactly when the key has a key map, leaving `Dropped` of the index. Otherwise it fails with a null-pointer error and changes nothing. |
| `TinkerIndexes.TinkerIndex.GetIndexedKeys` | blueprints/blueprints-tinkergraph/src/main/java/com/tinkerpop/blueprints/tinkergraph/TinkerIndex.java:127-129 | `getIndexedKeys` returns exactly the keys of the index map, not the automatically indexed keys. |
| `AggregateSteps.Memory.GetOrCreate` | gremlin-core/src/main/java/com/tinkerpop/gremlin/process/graph/step/sideEffect/AggregateStep.java:40 | The memory's collection under the name is returned and reused. If there is none, a new empty collection is stored under the name and returned. |
| `AggregateSteps.AggregateStep.constructor` | gremlin-core/src/main/java/com/tinkerpop/gremlin/process/graph/step/sideEffect/AggregateStep.java:32-41 | `aggregate` is bound to the memory's collection under `variable`: an existing one is reused, otherwise a new empty one is stored. The queue starts empty and `bulkCount` starts at 1. |
| `AggregateSteps.AggregateStep.SetCurrentBulkCount` | gremlin-core/src/main/java/com/tinkerpop/gremlin/process/graph/step/sideEffect/AggregateStep.java:47-49 | Overwrites `bulkCount`. |
| `AggregateSteps.AggregateStep.SetCurrentVertex` | gremlin-core/src/main/java/com/tinkerpop/gremlin/process/graph/step/sideEffect/AggregateStep.java:51-55 | Points `aggregate` at the vertex's hidden collection for `variable` when one is present. Otherwise it stores a new empty collection there and points at it. |
| `AggregateSteps.Reps` | gremlin-core/src/main/java/com/tinkerpop/gremlin/process/graph/step/sideEffect/AggregateStep.java:66 | The counting loop runs `bulkCount` times, and not at all for a non-positive `bulkCount`. |
| `AggregateSteps.AggregateStep.AddBulk` | gremlin-core/src/main/java/com/tinkerpop/gremlin/process/graph/step/sideEffect/AggregateStep.java:66-71 | The counting loop for one traverser adds its (pre-aggregated) value `bulkCount` times to the aggregate and queues `bulkCount` siblings. It adds nothing when `bulkCount` is not positive. |
| `AggregateSteps.AggregateStep.Drain` | gremlin-core/src/main/java/com/tinkerpop/gremlin/process/graph/step/sideEffect/AggregateStep.java:65-72 | `forEachRemaining` empties upstream. The aggregate grows by `Aggregated` of the upstream traversers and the queue by their `Siblings`, in upstream order. |
| `AggregateSteps.AggregateStep.ProcessNextStart` | gremlin-core/src/main/java/com/tinkerpop/gremlin/process/graph/step/sideEffect/AggregateStep.java:62-80 | One pull drains all of upstream before emitting. The aggregate grows by the (pre-aggregated) upstream values, each `bulkCount` times in upstream order, and the queue by as many siblings. The pull then emits the oldest queued sibling, or signals exhaustion when the queue is empty. |
| `AggregateSteps.SiblingsLength` | gremlin-core/src/main/java/com/tinkerpop/gremlin/process/graph/step/sideEffect/AggregateStep.java:66-71 | The drain queues exactly `bulkCount × |upstream|` siblings. |
| `AggregateSteps.SiblingAt` | gremlin-core/src/main/java/com/tinkerpop/gremlin/process/graph/step/sideEffect/AggregateStep.java:65-75 | Queued sibling number `j·bulkCount + k` is a copy of upstream traverser `j`. So the emissions are the upstream values in upstream order, each repeated `bulkCount` times. |
| `AggregateSteps.AggregatedMatchesSiblings` | gremlin-core/src/main/java/com/tinkerpop/gremlin/process/graph/step/sideEffect/AggregateStep.java:65-71 | The aggregate gains one value per queued sibling, `bulkCount × |upstream|` in all. Value `i` is the pre-aggregate function applied to sibling `i`'s value, or that value itself when there is no function. |
| `AggregateSteps.ThreeTraverserScenario` | gremlin-core/src/main/java/com/tinkerpop/gremlin/process/graph/step/sideEffect/AggregateStep.java:62-80 | Three upstream traversers of bulk 1 give an aggregate of their three values and three re-emitted traversers with the original values. |
| `GraphComputers.SubmissionError` | hadoop-gremlin/src/main/java/org/apache/tinkerpop/gremlin/hadoop/process/computer/AbstractHadoopGraphComputer.java:97-108 | The first failed check decides the error. An executed computer gives "already submitted". Otherwise no program and no job gives "no vertex program nor map reducers", and an invalid program gives the program's error. |
| `HadoopGraphComputers.Supports` | hadoop-gremlin/src/main/java/org/apache/tinkerpop/gremlin/hadoop/process/computer/AbstractHadoopGraphComputer.java:125-169 | The seven mutation flags this computer overrides, and direct-object support, are false. |
| `HadoopGraphComputers.SupportsIsolation` | hadoop-gremlin/src/main/java/org/apache/tinkerpop/gremlin/hadoop/process/computer/AbstractHadoopGraphComputer.java:153-155 | An isolation level is supported exactly when it is BSP. |
| `HadoopGraphComputers.SupportsResultGraphPersistCombination` | hadoop-gremlin/src/main/java/org/apache/tinkerpop/gremlin/hadoop/process/computer/AbstractHadoopGraphComputer.java:157-165 | An output format that knows its persistence options decides. Any other format is assumed to support every combination. |
| `HadoopGraphComputers.HadoopGraphComputer.constructor` | hadoop-gremlin/src/main/java/org/apache/tinkerpop/gremlin/hadoop/process/computer/AbstractHadoopGraphComputer.java:49-59 | A new computer is not executed. It has no program, no jobs, and no chosen result graph or persistence. |
| `HadoopGraphComputers.HadoopGraphComputer.SetIsolation` | hadoop-gremlin/src/main/java/org/apache/tinkerpop/gremlin/hadoop/process/computer/AbstractHadoopGraphComputer.java:61-66 | `isolation` accepts exactly the levels `features()` declares supported (BSP) and changes nothing. Any other level fails with "isolation not supported". A null level fails with a null-pointer error. |
| `HadoopGraphComputers.HadoopGraphComputer.SetResult` | hadoop-gremlin/src/main/java/org/apache/tinkerpop/gremlin/hadoop/process/computer/AbstractHadoopGraphComputer.java:68-72 | Records the chosen result graph. A null one fails with a null-pointer error and leaves the earlier choice. |
| `HadoopGraphComputers.HadoopGraphComputer.SetPersist` | hadoop-gremlin/src/main/java/org/apache/tinkerpop/gremlin/hadoop/process/computer/AbstractHadoopGraphComputer.java:74-78 | Records the chosen persistence. A null one fails with a null-pointer error and leaves the earlier choice. |
| `HadoopGraphComputers.HadoopGraphComputer.SetProgram` | hadoop-gremlin/src/main/java/org/apache/tinkerpop/gremlin/hadoop/process/computer/AbstractHadoopGraphComputer.java:80-84 | Replaces the vertex program. |
| `HadoopGraphComputers.HadoopGraphComputer.AddMapReduce` | hadoop-gremlin/src/main/java/org/apache/tinkerpop/gremlin/hadoop/process/computer/AbstractHadoopGraphComputer.java:86-90 | Adds the job to the job set. |
| `HadoopGraphComputers.HadoopGraphComputer.ValidateStatePriorToExecution` | hadoop-gremlin/src/main/java/org/apache/tinkerpop/gremlin/hadoop/process/computer/AbstractHadoopGraphComputer.java:97-119 | The computer is executed afterwards even when a check fails, so only a first call can pass. A failed first check gives `SubmissionError` and changes nothing else. Otherwise the jobs become the old jobs plus the program's. An unset persistence or result graph defaults to the program's preference, or to NOTHING / ORIGINAL without a program; explicit choices are kept. The call fails with "combination not supported" exactly when the output format rejects the final pair. |
| `SparkGraphComputers.SparkGraphComputer.constructor` | hadoop-gremlin/src/main/java/org/apache/tinkerpop/gremlin/hadoop/process/computer/spark/SparkGraphComputer.java:59-65 | A new computer is not executed and has no program and no jobs. |
| `SparkGraphComputers.SparkGraphComputer.SetIsolation` | hadoop-gremlin/src/main/java/org/apache/tinkerpop/gremlin/hadoop/process/computer/spark/SparkGraphComputer.java:95-100 | `isolation` accepts exactly BSP and changes nothing. Any other level fails with "isolation not supported". A null level fails with a null-pointer error. |
| `SparkGraphComputers.SparkGraphComputer.SetProgram` | hadoop-gremlin/src/main/java/org/apache/tinkerpop/gremlin/hadoop/process/computer/spark/SparkGraphComputer.java:102-106 | Replaces any earlier program. |
| `SparkGraphComputers.SparkGraphComputer.AddMapReduce` | hadoop-gremlin/src/main/java/org/apache/tinkerpop/gremlin/hadoop/process/computer/spark/SparkGraphComputer.java:108-112 | Adds the job to a set, so adding a job that is already present changes nothing. |
| `SparkGraphComputers.SparkGraphComputer.Submit` | hadoop-gremlin/src/main/java/org/apache/tinkerpop/gremlin/hadoop/process/computer/spark/SparkGraphComputer.java:119-137 | The computer is executed afterwards even when validation fails, so a second submit always fails with "already submitted". Submit passes exactly when it is the first, there is a program or a job, and a set program validates. Otherwise it fails with `SubmissionError`. Only `executed` changes; the job set is not altered. |
| `ObjectWritableIterators.ReadNext` | hadoop-gremlin/src/main/java/org/apache/tinkerpop/gremlin/hadoop/structure/io/ObjectWritableIterator.java:61-65 | A reader yields its next pair and advances. With no pairs left it reports the end, or throws an I/O exception when it fails. |
| `ObjectWritableIterators.ReadStep` | hadoop-gremlin/src/main/java/org/apache/tinkerpop/gremlin/hadoop/structure/io/ObjectWritableIterator.java:58-66 | One read from the head of the queue: a pair read is the first pending pair. An exhausted reader is popped without changing what is pending. An I/O failure means nothing more is pending and the queue fails. |
| `ObjectWritableIterators.ObjectWritableIterator.constructor` | hadoop-gremlin/src/main/java/org/apache/tinkerpop/gremlin/hadoop/structure/io/ObjectWritableIterator.java:40-50 | A new iterator has nothing buffered. It will yield the pending pairs of its readers. |
| `ObjectWritableIterators.ObjectWritableIterator.ReadAhead` | hadoop-gremlin/src/main/java/org/apache/tinkerpop/gremlin/hadoop/structure/io/ObjectWritableIterator.java:58-66 | The read-ahead loop pops exhausted, non-failing readers from the front in order. It buffers the first pending pair when there is one. Otherwise it reports false, or an illegal-state error when the queue ends in an I/O failure. |
| `ObjectWritableIterators.ObjectWritableIterator.HasNext` | hadoop-gremlin/src/main/java/org/apache/tinkerpop/gremlin/hadoop/structure/io/ObjectWritableIterator.java:52-71 | Never loses a pair: what remains is unchanged, so a second call gives the same answer. With a buffered pair it returns true and changes nothing. It returns true exactly when a pair remains. With nothing left it returns false, or an illegal-state error (never false) when a reader failed. Only exhausted readers are popped, from the front. |
| `ObjectWritableIterators.ObjectWritableIterator.Next` | hadoop-gremlin/src/main/java/org/apache/tinkerpop/gremlin/hadoop/structure/io/ObjectWritableIterator.java:73-92 | Returns the first remaining pair (the buffered one when `hasNext` read it), consumes it and clears `available`. With nothing left it signals exhaustion, or an illegal-state error when a reader failed. |
| `ObjectWritableIterators.ObjectWritableIterator.Replay` | hadoop-gremlin/src/main/java/org/apache/tinkerpop/gremlin/hadoop/structure/io/ObjectWritableIterator.java:52-92 | A caller's arbitrary interleaving of `hasNext` and `next` receives exactly `Returned` of the iterator's remaining pairs. |
| `ObjectWritableIterators.ReturnedInOrder` | hadoop-gremlin/src/main/java/org/apache/tinkerpop/gremlin/hadoop/structure/io/ObjectWritableIterator.java:52-92 | Whatever the interleaving, the pairs received are a prefix of the remaining pairs, in order and each once. Once `next` has been called as often as there are pairs, they are all of them. |
| `ObjectWritableIterators.PendingIsConcat` | hadoop-gremlin/src/main/java/org/apache/tinkerpop/gremlin/hadoop/structure/io/ObjectWritableIterator.java:52-92 | Without I/O failures the iterator yields exactly the concatenation of the readers' pairs in queue order. |
| `ObjectWritableIterators.PendingPrefixOfConcat` | hadoop-gremlin/src/main/java/org/apache/tinkerpop/gremlin/hadoop/structure/io/ObjectWritableIterator.java:68-70 | With I/O failures the iterator yields a prefix of that concatenation and never more. |
| `ObjectWritableIterators.PendingStopsAtFailure` | hadoop-gremlin/src/main/java/org/apache/tinkerpop/gremlin/hadoop/structure/io/ObjectWritableIterator.java:58-70 | When reader `i` is the first to fail, the iterator yields exactly the pairs of readers `0..i`, the failing reader's own pairs included, and then throws. |
| `TraversalStrategies.Equals` | gremlin-core/src/main/java/org/apache/tinkerpop/gremlin/process/traversal/strategy/AbstractTraversalStrategy.java:39-42 | Two strategies are equal exactly when their run-time classes are equal. A null argument throws a null-pointer error. |
| `TraversalStrategies.EqualsReflexive` | gremlin-core/src/main/java/org/apache/tinkerpop/gremlin/process/traversal/strategy/AbstractTraversalStrategy.java:39-42 | Every strategy equals itself. |
| `TraversalStrategies.EqualsSymmetric` | gremlin-core/src/main/java/org/apache/tinkerpop/gremlin/process/traversal/strategy/AbstractTraversalStrategy.java:39-42 | Equality is symmetric. |
| `TraversalStrategies.EqualsTransitive` | gremlin-core/src/main/java/org/apache/tinkerpop/gremlin/process/traversal/strategy/AbstractTraversalStrategy.java:39-42 | Equality is transitive. |
| `TraversalStrategies.HashCode` | gremlin-core/src/main/java/org/apache/tinkerpop/gremlin/process/traversal/strategy/AbstractTraversalStrategy.java:34-37 | `hashCode` is the hash of the run-time class; `classHash` stands for `Class.hashCode`. |
| `TraversalStrategies.HashConsistentWithEquals` | gremlin-core/src/main/java/org/apache/tinkerpop/gremlin/process/traversal/strategy/AbstractTraversalStrategy.java:34-42 | Equal strategies have equal hash codes, and any two instances of one class are equal. |

## Left out

- `IndexHelper.reIndexElements` and `graph.query()` in `createKeyIndex` are not part of this model. The backfill is given as a sequence of (element, current value) pairs, which are put in order.
- `indexClass.isAssignableFrom(element.getClass())` is a predicate on elements given when the index is created. Java reflection is not modelled.
- `getIndexedKeys` returns a live view of the index's key set in the source. The model returns its value, so later changes seen through the view are not modelled. The same holds for the per-bucket sets, which no caller can reach.
- `Traverser.makeSibling` is a copy carrying the same value. Paths, labels and the traverser's own bulk are not modelled.
- `AggregateStep`: `getMapReduce`/`AggregateMapReduce` and `toString` are not modelled.
- `AggregateStep`: upstream (`starts`) is a sequence given at construction, because the step's upstream wiring (`AbstractStep.addStarts`) is not part of this model.
- `Graph.Key.hidden(variable)`: the vertex's hidden properties are keyed by the variable directly. The hidden-key encoding is not part of this model.
- `AggregateSteps.Reps`: the loop counter of `processNextStart` is a Java `int` compared with a `long` `bulkCount`. The model does not capture the counter's overflow when `bulkCount` exceeds 2^31 - 1.
- `GraphComputerHelper.validateProgramOnComputer`, `VertexProgram.getMapReducers` and the program's preferred result graph and persistence are foreign calls. The first is a predicate on programs given to the computer. The others are fields of the `VertexProgram` value.
- The output format reflection (`ReflectionUtils.newInstance`, the configuration) is a given `OutputFormat` value. The warning logged for an unaware format is not modelled.
- `program(null)` is not modelled. The setters take a non-null program.
- `mapReduce(null)` is not modelled. The source adds `null` to the job set, which then passes the "no vertex program nor map reducers" check. The model's jobs are non-null values.
- `supportsVertexPropertyAddition` is not overridden by the Hadoop computer, and its `GraphComputer.Features` default is not part of this model, so `Capability` leaves it out.
- The value under `variable` in the traversal memory or in a vertex's hidden properties is taken to be a list of the step's values. A value of another type is not modelled; in the source it fails with a class-cast exception at AggregateStep.java:40 or :52. A set is not modelled either; its `add` at :67 drops duplicates, so the aggregate would grow by fewer than `bulkCount × |upstream|` values. The pre-aggregate function is taken to return the traverser's value type, although `SFunction<S, ?>` allows any type.
- `setCurrentVertex(null)` is not modelled. The source throws a null-pointer exception at `vertex.property(...)`. The model takes a non-null vertex.
- Null property keys are not modelled: the index's keys are strings. In the source the hash maps accept a `null` key in `put`, `get`, `count`, `remove`, `autoUpdate`, `autoRemove` and `createKeyIndex`, and `dropKeyIndex(null)` throws unless a `null` key is present.
- `removeElement(null)` is not modelled. The source throws a null-pointer exception at `element.getClass()`. The model takes a non-null element.
- `SparkGraphComputer.main` and the asynchronous body of `submit` (which yields `null`) are Spark and concurrency plumbing and are left out. So are the loggers and `toString` of both computers.
- `ObjectWritableIterator`'s constructor lists files on a Hadoop file system and opens a reader per file. The model takes the readers directly, each as its remaining pairs plus whether reading past them fails. `ObjectWritable` deserialisation is not modelled.
- `ObjectWritableIterator.ReadAhead` is the read-ahead loop that the source writes out twice, in `hasNext` and `next`, as one method. In `next` it is used without setting `available`, as in the source.
- `Class.hashCode` is a given function from class names to integers. Its 32-bit range is not modelled.
- `MetaPropertyTest` is a test suite for vertex multi-properties whose implementation is not part of this model.
