/**
 * How `MultipleOutputFormat` derives, for one record, the actual key and value
 * to persist and the name of the output file the record goes to.
 *
 * Hadoop's `Path` is abstracted as `HPath`: a list of path segments read top to
 * bottom, and whether the path starts at the root. The job `Configuration` is
 * abstracted as the two settings this code reads.
 */
module OutputNames {
  import opened Wrappers

  /**
   * The four overridable hooks of `MultipleOutputFormat`. A subclass that
   * overrides one of them is modelled by a different function value.
   */
  datatype Hooks<!K, !V> = Hooks(
    generateActualKey: (K, V) -> K,
    generateActualValue: (K, V) -> V,
    generateFileNameForKeyValue: (K, V, string) -> string,
    generateLeafFileName: string -> string)

  /** The hooks as `MultipleOutputFormat` defines them: each returns its input unchanged. */
  function DefaultHooks<K, V>(): Hooks<K, V>
  {
    Hooks((key, value) => key,
          (key, value) => value,
          (key, value, name) => name,
          name => name)
  }

  lemma DefaultHooksAreIdentities<K, V>(key: K, value: V, name: string)
    ensures DefaultHooks<K, V>().generateActualKey(key, value) == key
    ensures DefaultHooks<K, V>().generateActualValue(key, value) == value
    ensures DefaultHooks<K, V>().generateFileNameForKeyValue(key, value, name) == name
    ensures DefaultHooks<K, V>().generateLeafFileName(name) == name
  {
  }

  /** A Hadoop `Path`: its segments from the top down, and whether it starts at the root. */
  datatype HPath = HPath(absolute: bool, segments: seq<string>) {

    /** `getName()`: the last segment; the root (and the empty path) has the empty name. */
    function Name(): string
    {
      if |segments| == 0 then "" else segments[|segments| - 1]
    }

    /**
     * `getParent()`: the path without its last segment. The root has no parent,
     * and neither has a relative path of a single segment.
     */
    function Parent(): Option<HPath>
    {
      if |segments| == 0 || (!absolute && |segments| == 1) then None
      else Some(HPath(absolute, segments[..|segments| - 1]))
    }
  }

  /** The failure the naming code can raise: Hadoop's `Path` rejects an empty path string. */
  datatype NameError = IllegalPath

  /**
   * The settings the naming code reads: "map.input.file", the file the current
   * map task reads (absent outside a map-only job), and
   * "mapred.outputformat.numOfTrailingLegs".
   */
  datatype Config = Config(mapInputFile: Option<HPath>, numOfTrailingLegs: Option<int>)

  /**
   * `job.getInt("mapred.outputformat.numOfTrailingLegs", 0)`: the configured
   * count, or 0, which turns the feature off, when the setting is absent.
   */
  function TrailingLegsToUse(job: Config): (n: int)
    ensures job.numOfTrailingLegs.None? ==> n == 0
    ensures job.numOfTrailingLegs.Some? ==> n == job.numOfTrailingLegs.value
  {
    job.numOfTrailingLegs.GetOr(0)
  }

  /** `new Path(leg0, new Path(leg1, ... new Path(legN)))`, written out as a string. */
  function Join(legs: seq<string>): string
    requires |legs| > 0
  {
    if |legs| == 1 then legs[0] else legs[0] + "/" + Join(legs[1..])
  }

  /** The number of segments at the end of `s` that have a non-empty name. */
  function NonEmptyRun(s: seq<string>): (r: nat)
    ensures r <= |s|
    ensures forall j :: |s| - r <= j < |s| ==> s[j] != ""
  {
    if |s| == 0 || s[|s| - 1] == "" then 0 else 1 + NonEmptyRun(s[..|s| - 1])
  }

  /** The run stops only at the top of `s` or at a segment with an empty name. */
  lemma {:induction false} NonEmptyRunStops(s: seq<string>)
    ensures NonEmptyRun(s) == |s| || s[|s| - NonEmptyRun(s) - 1] == ""
  {
    if |s| > 0 && s[|s| - 1] != "" {
      NonEmptyRunStops(s[..|s| - 1]);
    }
  }

  /** A run of `m` non-empty names at the end of `s` is never longer than `NonEmptyRun(s)`. */
  lemma NonEmptyRunIsLongest(s: seq<string>, m: nat)
    requires m <= |s|
    requires forall j :: |s| - m <= j < |s| ==> s[j] != ""
    ensures m <= NonEmptyRun(s)
  {
    NonEmptyRunStops(s);
  }

  /**
   * How many legs the walk up from `p` collects when at most `n` are wanted:
   * the file's own name, then one leg per ancestor until `n` legs are collected,
   * an ancestor is missing, or an ancestor has the empty name.
   */
  function LegCount(p: HPath, n: int): nat
    requires n >= 1 && |p.segments| >= 1
  {
    var run := 1 + NonEmptyRun(p.segments[..|p.segments| - 1]);
    if n < run then n else run
  }

  /** The last `k` segments of `p`, joined top to bottom. */
  function TrailingLegs(p: HPath, k: nat): string
    requires 1 <= k <= |p.segments|
  {
    Join(p.segments[|p.segments| - k..])
  }

  /**
   * What `getInputFileBasedOutputFileName(job, name)` returns: `name` unchanged
   * when there is no input file or fewer than one leg is wanted; otherwise the
   * trailing legs of the input file, and `name` is not used.
   */
  function InputBasedName(job: Config, name: string): Result<string, NameError>
  {
    match job.mapInputFile
    case None => Ok(name)
    case Some(infile) =>
      var n := TrailingLegsToUse(job);
      if n <= 0 then Ok(name)
      else if infile.Name() == "" then Err(IllegalPath)
      else Ok(TrailingLegs(infile, LegCount(infile, n)))
  }

  /**
   * The number of legs used: at least the file's own name, at most `n`, all of
   * them with non-empty names, and fewer than `n` only when the walk reached
   * the top of the path or an ancestor with the empty name.
   */
  lemma {:induction false} LegCountStops(p: HPath, n: int)
    requires n >= 1 && p.Name() != ""
    ensures |p.segments| >= 1
    ensures var k := LegCount(p, n);
      && 1 <= k <= n && k <= |p.segments|
      && (forall j :: |p.segments| - k <= j < |p.segments| ==> p.segments[j] != "")
      && (k < n ==> k == |p.segments| || p.segments[|p.segments| - k - 1] == "")
  {
    var s := p.segments;
    var init := s[..|s| - 1];
    var k := LegCount(p, n);
    NonEmptyRunStops(init);
    forall j | |s| - k <= j < |s|
      ensures s[j] != ""
    {
      if j < |s| - 1 {
        assert s[j] == init[j];
      }
    }
    if k < n {
      if k < |s| {
        assert s[|s| - k - 1] == init[|init| - NonEmptyRun(init) - 1];
      }
    }
  }

  /**
   * For a path whose segments all have names (as Hadoop normalises them), the
   * result is the last `min(n, depth)` segments: a count larger than the depth
   * is cut down silently.
   */
  lemma {:induction false} NormalisedPathLegs(p: HPath, n: int)
    requires n >= 1 && |p.segments| >= 1
    requires forall j :: 0 <= j < |p.segments| ==> p.segments[j] != ""
    ensures LegCount(p, n) == if n < |p.segments| then n else |p.segments|
  {
    var s := p.segments;
    var init := s[..|s| - 1];
    NonEmptyRunIsLongest(init, |init|);
  }

  /**
   * Worked cases for the input file `/a/b/c/file.txt`: two legs give
   * `c/file.txt`, five legs are cut down to the four there are, and the
   * candidate name is returned unchanged only when the feature is off.
   * An input path of `/` alone has no file name and is rejected.
   */
  lemma TrailingLegsExamples()
    ensures var p := HPath(true, ["a", "b", "c", "file.txt"]);
      && InputBasedName(Config(Some(p), Some(2)), "part-00000") == Ok("c/file.txt")
      && InputBasedName(Config(Some(p), Some(5)), "part-00000") == Ok("a/b/c/file.txt")
      && InputBasedName(Config(Some(p), None), "part-00000") == Ok("part-00000")
      && InputBasedName(Config(None, Some(2)), "part-00000") == Ok("part-00000")
    ensures InputBasedName(Config(Some(HPath(true, [])), Some(1)), "part-00000") == Err(IllegalPath)
  {
    var p := HPath(true, ["a", "b", "c", "file.txt"]);
    NormalisedPathLegs(p, 2);
    NormalisedPathLegs(p, 5);
    assert p.segments[2..] == ["c", "file.txt"];
    assert Join(["c", "file.txt"]) == "c" + "/" + Join(["file.txt"]) == "c/file.txt";
    assert p.segments[0..] == ["a", "b", "c", "file.txt"];
    assert Join(["b", "c", "file.txt"]) == "b" + "/" + Join(["c", "file.txt"]) == "b/c/file.txt";
    assert Join(["a", "b", "c", "file.txt"]) == "a" + "/" + Join(["b", "c", "file.txt"]) == "a/b/c/file.txt";
  }

  /**
   * The value of `parent` once the walk has collected `i` legs of `p`: the
   * path of the next ancestor up, if there is one.
   */
  function AncestorAbove(p: HPath, i: nat): Option<HPath>
  {
    if i < |p.segments| || (i == |p.segments| && p.absolute)
    then Some(HPath(p.absolute, p.segments[..|p.segments| - i]))
    else None
  }

  /** One step of the walk: the ancestor's name is the next leg up, and its parent is the next ancestor. */
  lemma AncestorStep(p: HPath, i: nat)
    requires 1 <= i && AncestorAbove(p, i).Some?
    ensures AncestorAbove(p, i).value.Name() == if i < |p.segments| then p.segments[|p.segments| - i - 1] else ""
    ensures AncestorAbove(p, i).value.Parent() == AncestorAbove(p, i + 1)
  {
    var s := p.segments;
    if i < |s| {
      assert s[..|s| - i][..|s| - i - 1] == s[..|s| - (i + 1)];
    }
  }

  /** Where the walk ends, it has collected exactly `LegCount(p, n)` legs. */
  lemma WalkEnds(p: HPath, n: int, i: nat)
    requires 1 <= i <= n && i <= |p.segments|
    requires i - 1 <= NonEmptyRun(p.segments[..|p.segments| - 1])
    requires i == n || AncestorAbove(p, i).None? || AncestorAbove(p, i).value.Name() == ""
    ensures i == LegCount(p, n)
  {
  }

  /**
   * `getInputFileBasedOutputFileName`: walks from the input file up its
   * ancestors, prepending one leg per step.
   */
  method GetInputFileBasedOutputFileName(job: Config, name: string) returns (r: Result<string, NameError>)
    ensures job.mapInputFile.None? ==> r == Ok(name)
    ensures TrailingLegsToUse(job) <= 0 ==> r == Ok(name)
    ensures r == InputBasedName(job, name)
  {
    if job.mapInputFile.None? {
      return Ok(name);
    }
    var numOfTrailingLegsToUse := TrailingLegsToUse(job);
    if numOfTrailingLegsToUse <= 0 {
      return Ok(name);
    }
    var infile := job.mapInputFile.value;
    var parent := infile.Parent();
    var midName := infile.Name();
    if midName == "" {
      // `new Path("")` is rejected
      return Err(IllegalPath);
    }
    ghost var s := infile.segments;
    ghost var init := s[..|s| - 1];
    var outPath := midName;
    var i := 1;
    while i < numOfTrailingLegsToUse
      invariant 1 <= i <= numOfTrailingLegsToUse && i <= |s|
      invariant outPath == TrailingLegs(infile, i)
      invariant parent == AncestorAbove(infile, i)
      invariant i - 1 <= NonEmptyRun(init)
    {
      if parent.None? {
        break;
      }
      AncestorStep(infile, i);
      midName := parent.value.Name();
      if |midName| == 0 {
        break;
      }
      NonEmptyRunStops(init);
      assert init[|init| - i] == midName;
      parent := parent.value.Parent();
      assert s[|s| - (i + 1)..] == [midName] + s[|s| - i..];
      outPath := midName + "/" + outPath;
      i := i + 1;
    }
    WalkEnds(infile, numOfTrailingLegsToUse, i);
    return Ok(outPath);
  }

  /**
   * Where `write` sends a record: the key-based name of `myName`, then the
   * input-file-based name of that. With the input-file feature off the
   * key-based name is the destination; with it on, the key-based name is
   * discarded and only the input file decides.
   */
  function Destination<K, V>(hooks: Hooks<K, V>, job: Config, myName: string, key: K, value: V): (r: Result<string, NameError>)
    ensures job.mapInputFile.None? || TrailingLegsToUse(job) <= 0 ==>
      r == Ok(hooks.generateFileNameForKeyValue(key, value, myName))
    ensures job.mapInputFile.Some? && TrailingLegsToUse(job) > 0 ==>
      r == InputBasedName(job, myName)
  {
    InputBasedName(job, hooks.generateFileNameForKeyValue(key, value, myName))
  }

  /**
   * With the default hooks, every record of a task attempt goes to its own leaf
   * name, or to the input-file-based name when that is enabled.
   */
  lemma DefaultRouting<K, V>(job: Config, baseName: string, key: K, value: V)
    ensures var hooks := DefaultHooks<K, V>();
      Destination(hooks, job, hooks.generateLeafFileName(baseName), key, value) == InputBasedName(job, baseName)
  {
  }
}
