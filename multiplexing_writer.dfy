/**
 * The composite `RecordWriter` that `MultipleOutputFormat.getRecordWriter`
 * returns: it keeps one underlying writer per output file name, opens each
 * lazily on the first record that goes there, and closes them all at the end.
 */
module MultipleOutput {
  import opened Wrappers
  import opened OutputNames
  import opened KeyOrder

  /** An underlying writer, as handed out by `getBaseRecordWriter`. */
  type WriterId = nat

  /** The exceptions `write` and `close` propagate. */
  datatype WriteError =
    | NameFailed(reason: NameError)   // deriving the output file name threw
    | CreateFailed                    // `getBaseRecordWriter` threw
    | DelegateWriteFailed             // the underlying writer's `write` threw

  datatype CloseError = DelegateCloseFailed   // an underlying writer's `close` threw

  /** One `rw.write(actualKey, actualValue)` call passed on to an underlying writer. */
  datatype Delegated<K, V> = Delegated(writer: WriterId, key: K, value: V)

  /** One `rw.close(context)` call on the underlying writer cached under `key`. */
  datatype Closing = Closing(key: string, writer: WriterId)

  class MultiplexingWriter<K(==), V(==)> {
    const hooks: Hooks<K, V>
    const conf: Config
    /** The leaf file name of the task attempt, after `generateLeafFileName`. */
    const myName: string

    /** `recordWriters`: the cache from output file name to its underlying writer. */
    var recordWriters: map<string, WriterId>
    /** The factory: the id the next successful `getBaseRecordWriter` call hands out. */
    var nextId: WriterId

    /** `created[w]` is the output file name writer `w` was created for. */
    ghost var created: seq<string>
    /** The writers created since the cache was last cleared are `created[epoch..]`. */
    ghost var epoch: nat
    /** Every delegated `write`, in order. */
    ghost var writes: seq<Delegated<K, V>>
    /** Every delegated `close`, in order. */
    ghost var closes: seq<Closing>

    /**
     * The cache holds exactly the writers created since it was last cleared,
     * each under the name it was created for, so each output file name has at
     * most one writer and the number of writers created equals the number of
     * distinct names cached.
     */
    ghost predicate Valid()
      reads this
    {
      && nextId == |created|
      && epoch <= |created|
      && (forall d :: d in recordWriters ==>
            epoch <= recordWriters[d] < |created| && created[recordWriters[d]] == d)
      && (forall w :: epoch <= w < |created| ==>
            created[w] in recordWriters && recordWriters[created[w]] == w)
      && |recordWriters| == |created| - epoch
    }

    /**
     * `getRecordWriter(job)`: `baseName` is the unique leaf name of the task attempt
     * (`getUniqueFile(job, getOutputName(job), "")`); the cache starts empty.
     */
    constructor (hooks: Hooks<K, V>, conf: Config, baseName: string)
      ensures Valid()
      ensures this.hooks == hooks && this.conf == conf
      ensures myName == hooks.generateLeafFileName(baseName)
      ensures recordWriters == map[] && created == [] && writes == [] && closes == []
    {
      this.hooks := hooks;
      this.conf := conf;
      myName := hooks.generateLeafFileName(baseName);
      recordWriters := map[];
      nextId := 0;
      created := [];
      epoch := 0;
      writes := [];
      closes := [];
    }

    /**
     * `getBaseRecordWriter(job, name)`: a fresh writer for `name`, or the
     * exception (`ok` false) the factory throws.
     */
    method GetBaseRecordWriter(name: string, ok: bool) returns (r: Result<WriterId, WriteError>)
      requires Valid()
      modifies this`nextId, this`created
      ensures ok ==> r == Ok(old(nextId)) && created == old(created) + [name]
      ensures !ok ==> r == Err(CreateFailed) && created == old(created)
      ensures nextId == |created|
    {
      if !ok {
        return Err(CreateFailed);
      }
      r := Ok(nextId);
      nextId := nextId + 1;
      created := created + [name];
    }

    /**
     * `write(key, value)`. `createOk` says whether `getBaseRecordWriter` would
     * succeed, and `writeOk` whether the underlying writer's `write` would.
     */
    method Write(key: K, value: V, createOk: bool, writeOk: bool) returns (r: Outcome<WriteError>)
      requires Valid()
      modifies this
      ensures Valid()
      ensures epoch == old(epoch) && closes == old(closes)
      // an output file name that cannot be derived changes nothing
      ensures Destination(hooks, conf, myName, key, value).Err? ==>
        && r == Fail(NameFailed(Destination(hooks, conf, myName, key, value).error))
        && recordWriters == old(recordWriters) && created == old(created) && writes == old(writes)
      ensures Destination(hooks, conf, myName, key, value).Ok? ==>
        var finalPath := Destination(hooks, conf, myName, key, value).value;
        // a cached writer is reused and the factory is not called
        && (finalPath in old(recordWriters) ==>
              recordWriters == old(recordWriters) && created == old(created))
        // on a miss the factory is called once, and its writer is cached under `finalPath`
        && (finalPath !in old(recordWriters) && createOk ==>
              recordWriters == old(recordWriters)[finalPath := old(nextId)]
              && created == old(created) + [finalPath])
        // a failing factory leaves the cache as it was
        && (finalPath !in old(recordWriters) && !createOk ==>
              && r == Fail(CreateFailed)
              && recordWriters == old(recordWriters) && created == old(created) && writes == old(writes))
        // once a writer is at hand, the actual key and value go to the writer cached under `finalPath`
        && (finalPath in old(recordWriters) || createOk ==>
              && finalPath in recordWriters
              && writes == old(writes) + [Delegated(recordWriters[finalPath],
                                                    hooks.generateActualKey(key, value),
                                                    hooks.generateActualValue(key, value))]
              && r == if writeOk then Pass else Fail(DelegateWriteFailed))
      // every writer cached before keeps its name and its writer
      ensures forall d :: d in old(recordWriters) ==> d in recordWriters && recordWriters[d] == old(recordWriters)[d]
    {
      var keyBasedPath := hooks.generateFileNameForKeyValue(key, value, myName);
      var finalPath := GetInputFileBasedOutputFileName(conf, keyBasedPath);
      if finalPath.Err? {
        return Fail(NameFailed(finalPath.error));
      }
      var actualKey := hooks.generateActualKey(key, value);
      var actualValue := hooks.generateActualValue(key, value);
      var rw: WriterId;
      if finalPath.value in recordWriters {
        rw := recordWriters[finalPath.value];
      } else {
        var made := GetBaseRecordWriter(finalPath.value, createOk);
        if made.Err? {
          return Fail(made.error);
        }
        rw := made.value;
        recordWriters := recordWriters[finalPath.value := rw];
      }
      writes := writes + [Delegated(rw, actualKey, actualValue)];
      r := if writeOk then Pass else Fail(DelegateWriteFailed);
    }

    /**
     * `close(context)`: closes the cached writers in ascending order of their
     * names, then clears the cache. `failing` holds the writers whose `close`
     * throws; the first of them visited stops the iteration, and the
     * exception propagates with the cache left as it was.
     */
    method Close(failing: set<WriterId>) returns (r: Outcome<CloseError>)
      requires Valid()
      modifies this
      ensures Valid()
      ensures nextId == old(nextId) && created == old(created) && writes == old(writes)
      ensures |old(closes)| <= |closes| && closes[..|old(closes)|] == old(closes)
      // each writer is closed under the name it is cached under, in strictly ascending name order
      ensures forall i :: |old(closes)| <= i < |closes| ==>
        closes[i].key in old(recordWriters) && closes[i].writer == old(recordWriters)[closes[i].key]
      ensures forall i, j :: |old(closes)| <= i < j < |closes| ==> Less(closes[i].key, closes[j].key)
      // on success every cached writer has been closed once and the cache is empty
      ensures r.Pass? ==>
        && ClosedKeys(closes[|old(closes)|..]) == old(recordWriters).Keys
        && (forall i :: |old(closes)| <= i < |closes| ==> closes[i].writer !in failing)
        && recordWriters == map[]
      // on failure the last writer closed threw, the writers after it were not closed, and the cache is kept
      ensures r.Fail? ==>
        && |old(closes)| < |closes|
        && closes[|closes| - 1].writer in failing
        && (forall i :: |old(closes)| <= i < |closes| - 1 ==> closes[i].writer !in failing)
        && ClosedKeys(closes[|old(closes)|..])
             == (set d | d in old(recordWriters) && !Less(closes[|closes| - 1].key, d))
        && recordWriters == old(recordWriters)
    {
      var visited, ok := CloseInOrder(recordWriters, failing);
      closes := closes + visited;
      assert closes[|old(closes)|..] == visited;
      if !ok {
        return Fail(DelegateCloseFailed);
      }
      recordWriters := map[];
      epoch := |created|;
      r := Pass;
    }
  }

  /**
   * The iteration of `close` over the cache: `visited` lists the writers whose
   * `close` was called, in the order they were called; `ok` is false when the
   * last of them threw.
   */
  method CloseInOrder(cache: map<string, WriterId>, failing: set<WriterId>) returns (visited: seq<Closing>, ok: bool)
    ensures forall i :: 0 <= i < |visited| ==>
      visited[i].key in cache && visited[i].writer == cache[visited[i].key]
    ensures forall i, j :: 0 <= i < j < |visited| ==> Less(visited[i].key, visited[j].key)
    ensures ok ==>
      && ClosedKeys(visited) == cache.Keys
      && (forall i :: 0 <= i < |visited| ==> visited[i].writer !in failing)
    ensures !ok ==>
      && |visited| > 0
      && visited[|visited| - 1].writer in failing
      && (forall i :: 0 <= i < |visited| - 1 ==> visited[i].writer !in failing)
      && ClosedKeys(visited) == (set d | d in cache && !Less(visited[|visited| - 1].key, d))
  {
    visited := [];
    var keys := cache.Keys;
    while keys != {}
      invariant ClosingSoFar(cache, failing, keys, visited)
      decreases |keys|
    {
      LeastKeyExists(keys);
      var k :| IsLeast(k, keys);
      var rw := cache[k];
      if rw in failing {
        StoppedAt(cache, failing, keys, visited, k);
        visited := visited + [Closing(k, rw)];
        return visited, false;
      }
      ClosingStep(cache, failing, keys, visited, k);
      visited := visited + [Closing(k, rw)];
      keys := keys - {k};
    }
    ok := true;
  }

  /**
   * The loop invariant of `CloseInOrder`: the writers visited so far were
   * closed in ascending name order, all below the names still to visit,
   * none of them threw, and together with `keys` they cover the cache.
   */
  ghost predicate ClosingSoFar(cache: map<string, WriterId>, failing: set<WriterId>, keys: set<string>, visited: seq<Closing>)
  {
    && keys <= cache.Keys
    && (forall i :: 0 <= i < |visited| ==>
          visited[i].key in cache && visited[i].writer == cache[visited[i].key])
    && (forall i, j :: 0 <= i < j < |visited| ==> Less(visited[i].key, visited[j].key))
    && (forall i, d :: 0 <= i < |visited| && d in keys ==> Less(visited[i].key, d))
    && ClosedKeys(visited) == cache.Keys - keys
    && (forall i :: 0 <= i < |visited| ==> visited[i].writer !in failing)
  }

  /** Closing the writer under the least remaining key without a failure keeps the invariant. */
  lemma ClosingStep(cache: map<string, WriterId>, failing: set<WriterId>, keys: set<string>, visited: seq<Closing>, k: string)
    requires ClosingSoFar(cache, failing, keys, visited) && IsLeast(k, keys) && cache[k] !in failing
    ensures ClosingSoFar(cache, failing, keys - {k}, visited + [Closing(k, cache[k])])
  {
    ClosedKeysAppend(visited, Closing(k, cache[k]));
  }

  /**
   * When the writer under the least remaining key `k` throws, the iteration
   * stops: the keys visited are exactly those up to and including `k`.
   */
  lemma StoppedAt(cache: map<string, WriterId>, failing: set<WriterId>, keys: set<string>, visited: seq<Closing>, k: string)
    requires ClosingSoFar(cache, failing, keys, visited) && IsLeast(k, keys) && cache[k] in failing
    ensures var visited' := visited + [Closing(k, cache[k])];
      && (forall i :: 0 <= i < |visited'| ==>
            visited'[i].key in cache && visited'[i].writer == cache[visited'[i].key])
      && (forall i, j :: 0 <= i < j < |visited'| ==> Less(visited'[i].key, visited'[j].key))
      && (forall i :: 0 <= i < |visited'| - 1 ==> visited'[i].writer !in failing)
      && ClosedKeys(visited') == (set d | d in cache && !Less(k, d))
  {
    ClosedKeysAppend(visited, Closing(k, cache[k]));
    forall d | d in cache
      ensures d in ClosedKeys(visited) + {k} <==> !Less(k, d)
    {
      if d == k {
        LessIrreflexive(k);
      } else if d in keys {
        LessAsymmetric(k, d);
      } else {
        assert d in ClosedKeys(visited);
        var i :| 0 <= i < |visited| && visited[i].key == d;
        LessAsymmetric(d, k);
      }
    }
  }

  /** The names under which the writers in `cs` were closed. */
  ghost function ClosedKeys(cs: seq<Closing>): set<string>
  {
    set i | 0 <= i < |cs| :: cs[i].key
  }

  lemma ClosedKeysAppend(cs: seq<Closing>, c: Closing)
    ensures ClosedKeys(cs + [c]) == ClosedKeys(cs) + {c.key}
  {
    var cs' := cs + [c];
    forall d | d in ClosedKeys(cs')
      ensures d in ClosedKeys(cs) + {c.key}
    {
      var i :| 0 <= i < |cs'| && cs'[i].key == d;
      if i < |cs| {
        assert cs[i].key == d;
      }
    }
    forall d | d in ClosedKeys(cs)
      ensures d in ClosedKeys(cs')
    {
      var i :| 0 <= i < |cs| && cs[i].key == d;
      assert cs'[i].key == d;
    }
    assert cs'[|cs|].key == c.key;
  }
}
