# Multiple output files for a Hadoop task

A model of `MultipleOutputFormat` from `MultipleTextOutputFormat.java`: the
output format that lets one map or reduce task write its records to many
output files. The name of each record's file is derived from the record and,
optionally, from the path of the map task's input file. A composite
`RecordWriter` keeps a cache of one underlying writer per output file name.
It opens each writer on the first record that goes there and closes them all
when the Hadoop task finishes.

The project has four modules:

- `Wrappers` (`wrappers.dfy`): `Option` for a Java `null`, and `Result` and
  `Outcome` for a call that can throw.
- `OutputNames` (`output_names.dfy`): the four overridable naming hooks and
  their identity defaults; Hadoop's `Path` as `HPath` (segments from the top
  down, plus whether the path is absolute); the job configuration as
  `Config`; and `getInputFileBasedOutputFileName` as a method with the
  source's loop. The method is proved equal to the specification function
  `InputBasedName`, and the properties of the name are proved about that
  function.
- `KeyOrder` (`key_order.dfy`): the natural order of the `TreeMap` keys
  (`String.compareTo`), proved to be a strict total order, so that every
  non-empty key set has a least key.
- `MultipleOutput` (`multiplexing_writer.dfy`): the composite writer as the
  class `MultiplexingWriter`. The field `recordWriters` is the cache. The
  counter `nextId` is the writer factory. Ghost logs record the writers
  created (`created`), the delegated writes (`writes`) and the delegated
  closes (`closes`). `Valid()` states the cache invariant: the cache holds
  exactly the writers created since it was last cleared, each under the name
  it was created for. So there is at most one writer per name, and the
  number of writers created equals the number of distinct names cached.

Three behaviours of the code are worth noting:

- When the input-file feature is on, the code returns only the trailing legs
  of the input file's path. It starts from the file's own name and does not
  use the candidate name. It does not prepend the legs to the candidate name.
- `close` stops at the first underlying writer whose `close` throws. It
  leaves the rest unclosed and the cache uncleared. It is not a best-effort
  drain.
- `write` after `close` is not rejected. A cleared cache is simply refilled
  lazily.

## Model

| member | source | states |
|---|---|---|
| `OutputNames.DefaultHooksAreIdentities` | utils/hadoop-ext/src/main/java/cn/uc/hadoop/mapreduce/lib/output/MultipleTextOutputFormat.java:44-87 | The default `generateActualKey`, `generateActualValue`, `generateFileNameForKeyValue` and `generateLeafFileName` each return their input unchanged. |
| `OutputNames.DefaultRouting` | utils/hadoop-ext/src/main/java/cn/uc/hadoop/mapreduce/lib/output/MultipleTextOutputFormat.java:199-204 | With the default hooks, every record of a task attempt goes to its base leaf name, or to the input-file-based name of it when that feature is on. |
| `OutputNames.TrailingLegsToUse` | utils/hadoop-ext/src/main/java/cn/uc/hadoop/mapreduce/lib/output/MultipleTextOutputFormat.java:131-132 | The leg count is the configured "mapred.outputformat.numOfTrailingLegs", or 0 (feature off) when the setting is absent. |
| `OutputNames.Destination` | utils/hadoop-ext/src/main/java/cn/uc/hadoop/mapreduce/lib/output/MultipleTextOutputFormat.java:199-204 | The final path of a record: with the input-file feature off it is the key-based name `generateFileNameForKeyValue(key, value, myName)`; with it on, the key-based name is discarded and the path is the input-file-based name alone. |
| `OutputNames.GetInputFileBasedOutputFileName` | utils/hadoop-ext/src/main/java/cn/uc/hadoop/mapreduce/lib/output/MultipleTextOutputFormat.java:123-152 | Returns `name` unchanged when "map.input.file" is unset or the leg count is 0 or less (the default is 0). Otherwise the walk up the input path gives exactly `InputBasedName`: the trailing `LegCount` legs, or an error when the file's own name is empty. |
| `OutputNames.LegCountStops` | utils/hadoop-ext/src/main/java/cn/uc/hadoop/mapreduce/lib/output/MultipleTextOutputFormat.java:136-151 | The number of legs used is between 1 and N and at most the depth of the path. Every leg has a non-empty name. Fewer than N legs are used only when the walk reached a missing parent (the top of the path) or an ancestor with an empty name (the root). |
| `OutputNames.NormalisedPathLegs` | utils/hadoop-ext/src/main/java/cn/uc/hadoop/mapreduce/lib/output/MultipleTextOutputFormat.java:137-150 | For a path whose segments all have names, the legs used are the last min(N, depth) segments. A count larger than the depth is cut down without error. |
| `OutputNames.NonEmptyRun` | utils/hadoop-ext/src/main/java/cn/uc/hadoop/mapreduce/lib/output/MultipleTextOutputFormat.java:144-147 | The run of ancestors the walk can climb is no longer than the path, and every ancestor in it has a non-empty name. |
| `OutputNames.NonEmptyRunStops` | utils/hadoop-ext/src/main/java/cn/uc/hadoop/mapreduce/lib/output/MultipleTextOutputFormat.java:141-147 | The run stops only at the top of the path or at an ancestor whose name is empty. |
| `OutputNames.AncestorStep` | utils/hadoop-ext/src/main/java/cn/uc/hadoop/mapreduce/lib/output/MultipleTextOutputFormat.java:144-148 | At each step, `parent.getName()` is the next segment up (empty at the root), and `parent.getParent()` is the ancestor one level higher. |
| `OutputNames.WalkEnds` | utils/hadoop-ext/src/main/java/cn/uc/hadoop/mapreduce/lib/output/MultipleTextOutputFormat.java:140-147 | Wherever the loop stops (N legs collected, `parent == null`, or an empty name), it has collected exactly `LegCount` legs. |
| `OutputNames.TrailingLegsExamples` | utils/hadoop-ext/src/main/java/cn/uc/hadoop/mapreduce/lib/output/MultipleTextOutputFormat.java:123-152 | For `/a/b/c/file.txt`: 2 legs give `c/file.txt` and 5 legs give `a/b/c/file.txt`. With no leg count or no input file, the name is unchanged. The input `/` is rejected. |
| `KeyOrder.LessIrreflexive` | utils/hadoop-ext/src/main/java/cn/uc/hadoop/mapreduce/lib/output/MultipleTextOutputFormat.java:181 | No cache key sorts before itself. |
| `KeyOrder.LessAsymmetric` | utils/hadoop-ext/src/main/java/cn/uc/hadoop/mapreduce/lib/output/MultipleTextOutputFormat.java:181 | Two keys never sort before each other. |
| `KeyOrder.LessTransitive` | utils/hadoop-ext/src/main/java/cn/uc/hadoop/mapreduce/lib/output/MultipleTextOutputFormat.java:181 | The key order is transitive. |
| `KeyOrder.LessTotal` | utils/hadoop-ext/src/main/java/cn/uc/hadoop/mapreduce/lib/output/MultipleTextOutputFormat.java:181 | Any two different keys are ordered one way or the other. |
| `KeyOrder.LeastKeyExists` | utils/hadoop-ext/src/main/java/cn/uc/hadoop/mapreduce/lib/output/MultipleTextOutputFormat.java:186-188 | Every non-empty key set has a least key, so the ascending key iterator always has a next key while keys remain. |
| `MultipleOutput.MultiplexingWriter.constructor` | utils/hadoop-ext/src/main/java/cn/uc/hadoop/mapreduce/lib/output/MultipleTextOutputFormat.java:173-181 | `myName` is `generateLeafFileName` of the unique base name of the task attempt. The cache starts empty, with no writer created yet. |
| `MultipleOutput.MultiplexingWriter.GetBaseRecordWriter` | utils/hadoop-ext/src/main/java/cn/uc/hadoop/mapreduce/lib/output/MultipleTextOutputFormat.java:104-106 | The factory either hands out a writer id never handed out before and logs which name it was made for, or throws and creates nothing. |
| `MultipleOutput.MultiplexingWriter.Write` | utils/hadoop-ext/src/main/java/cn/uc/hadoop/mapreduce/lib/output/MultipleTextOutputFormat.java:194-220 | The destination is `Destination(hooks, conf, myName, key, value)`, a function of the record and the configuration. On a hit the cached writer is reused and the factory is not called. On a miss the factory is called once and its writer is cached under that name. A failing factory or name derivation changes nothing. Every earlier entry keeps its writer. The actual key and value are written to the writer cached under the name. The cache invariant is kept. |
| `MultipleOutput.MultiplexingWriter.Close` | utils/hadoop-ext/src/main/java/cn/uc/hadoop/mapreduce/lib/output/MultipleTextOutputFormat.java:184-192 | Writers are closed in strictly ascending name order, each under the name it is cached under. On success every cached writer has been closed exactly once and the cache is empty. On failure the last writer closed threw, the writers with greater names were not closed, and the cache is unchanged. |
| `MultipleOutput.CloseInOrder` | utils/hadoop-ext/src/main/java/cn/uc/hadoop/mapreduce/lib/output/MultipleTextOutputFormat.java:186-190 | The iteration of `close` over the cache: closes in strictly ascending key order, covers every key when no close throws, and stops at the first writer that throws, after closing exactly the keys up to it. |
| `MultipleOutput.ClosingStep` | utils/hadoop-ext/src/main/java/cn/uc/hadoop/mapreduce/lib/output/MultipleTextOutputFormat.java:187-189 | Closing the writer under the least remaining key without a failure keeps the iteration's invariant. |
| `MultipleOutput.StoppedAt` | utils/hadoop-ext/src/main/java/cn/uc/hadoop/mapreduce/lib/output/MultipleTextOutputFormat.java:188-189 | When the writer under the least remaining key throws, the keys closed are exactly those up to and including it. |
| `MultipleOutput.ClosedKeysAppend` | utils/hadoop-ext/src/main/java/cn/uc/hadoop/mapreduce/lib/output/MultipleTextOutputFormat.java:188-189 | Closing one more writer adds exactly its key to the set of keys closed. |

## Left out

- Hadoop's `Path` is not part of this model. `HPath` stands for it: `getName` is the last segment (empty for the root), and `getParent` drops the last segment. The root has no parent, and the model gives a one-segment relative path no parent either (Hadoop itself answers `.` there). Parsing of the path string, URI schemes and authorities, Windows drive letters and the normalisation of separators are not modelled. `Path.toString` of the legs is modelled as the legs joined with `/`.
- `Configuration` is modelled as the two settings the code reads. A leg count that is not a number (Hadoop's `getInt` would throw) is not modelled. The count is an unbounded integer rather than a Java `int`; the loop counter cannot overflow in the source either, since it stays below the count.
- `getUniqueFile(job, getOutputName(job), "")` is Hadoop plumbing; its result is the constructor's `baseName` parameter.
- `MultipleTextOutputFormat.getBaseRecordWriter` and `TextOutputFormat`, which create the real files, are foreign I/O. They are modelled as a counter that hands out fresh writer ids. Whether the factory throws, and whether a delegated `write` or `close` throws, are parameters of `Write` and `Close`.
- Serialisation and disk writes inside the underlying writers are recorded in the ghost logs `writes` and `closes` instead.
- `IOException` and `InterruptedException` are not told apart. Each is a failure value of the call that throws it.
- The note at line 226 that records with the same key must reach the same JVM is an assumption about the running job, not code. Concurrency is not modelled.
- KeyOrder.Less: compares `char` values, which are Unicode scalar values; Java's `String.compareTo` compares UTF-16 code units. The two orders differ only for strings with characters above U+FFFF, which this model therefore orders differently.
