/**
 * The definition index: every enabled definition found in the definitions
 * directory, keyed by its file stem, in load order.
 *
 * Reading the directory and parsing YAML are outside the model: the
 * directory is given as a `Listing` of already-parsed files, in the order
 * the `*.yaml` glob and then the `*.yml` glob produce them.
 */
module Loader {
  import opened Wrappers
  import opened Text
  import OrderedDict
  import opened Models

  const DIR_ENV_KEY := "QUERY_DEFINITIONS_PATH"
  const NO_DIRECTORY := "queries_dir must be provided or QUERY_DEFINITIONS_PATH env var must be set"

  /** The index: file stem to definition, in insertion order. */
  type Index = OrderedDict.Dict<QueryDefinition>

  /** What `yaml.safe_load` made of one file. */
  datatype Content =
    | Blank                        // the document is empty or falsy
    | Unreadable(reason: string)   // reading or parsing raised
    | Document(raw: RawDefinition)

  datatype DefinitionFile = DefinitionFile(stem: string, content: Content)

  /** The definitions path as the file system shows it. */
  datatype Listing =
    | Missing
    | NotADirectory
    | Directory(yamlFiles: seq<DefinitionFile>, ymlFiles: seq<DefinitionFile>)

  /** The error a load re-raises. */
  datatype LoadError =
    | ReadFailed(stem: string, reason: string)
    | ValidationFailed(stem: string, errors: seq<FieldError>)

  /** The constructor's failures. */
  datatype InitError = NoDirectory(message: string) | LoadFailed(error: LoadError)

  /** The directory argument, falling back to the environment. */
  function ResolveDir(arg: Option<string>, env: map<string, string>): (r: Result<string, string>)
    ensures r.Err? <==> arg.None? && DIR_ENV_KEY !in env
    ensures r.Err? ==> r.error == NO_DIRECTORY
    ensures arg.Some? ==> r == Ok(arg.value)
    ensures arg.None? && r.Ok? ==> r.value == env[DIR_ENV_KEY]
  {
    match arg
    case Some(d) => Ok(d)
    case None => if DIR_ENV_KEY in env then Ok(env[DIR_ENV_KEY]) else Err(NO_DIRECTORY)
  }

  /** The files a load visits: none unless the path is a directory. */
  function Files(listing: Listing): (fs: seq<DefinitionFile>)
    ensures listing.Directory? ==> fs == listing.yamlFiles + listing.ymlFiles
    ensures !listing.Directory? ==> fs == []
  {
    if listing.Directory? then listing.yamlFiles + listing.ymlFiles else []
  }

  /** What loading one file does to the index. */
  datatype Step = Skip | Add(stem: string, definition: QueryDefinition) | Fail(error: LoadError)

  function FileStep(f: DefinitionFile): Step {
    match f.content
    case Blank => Skip
    case Unreadable(reason) => Fail(ReadFailed(f.stem, reason))
    case Document(raw) =>
      match BuildDefinition(raw)
      case Err(errs) => Fail(ValidationFailed(f.stem, errs))
      case Ok(d) => if d.enabled then Add(f.stem, d) else Skip
  }

  function Steps(files: seq<DefinitionFile>): (steps: seq<Step>)
    ensures |steps| == |files| && forall i :: 0 <= i < |files| ==> steps[i] == FileStep(files[i])
  {
    seq(|files|, i requires 0 <= i < |files| => FileStep(files[i]))
  }

  /** One step on the outcome so far: a failure stops everything after it. */
  function Next(prior: (Index, Option<LoadError>), step: Step): (Index, Option<LoadError>) {
    if prior.1.Some? then prior
    else
      match step
      case Skip => prior
      case Add(stem, d) => (OrderedDict.Put(prior.0, stem, d), None)
      case Fail(e) => (prior.0, Some(e))
  }

  /**
   * Applying the steps to `index` one after the other: the index left and
   * the error that stopped the run, if any.
   */
  function Apply(index: Index, steps: seq<Step>): (Index, Option<LoadError>)
    decreases |steps|
  {
    if steps == [] then (index, None)
    else Next(Apply(index, steps[..|steps| - 1]), steps[|steps| - 1])
  }

  /** The run over a prefix one step longer. */
  lemma ApplyPrefix(index: Index, steps: seq<Step>, i: nat)
    requires i < |steps|
    ensures Apply(index, steps[..i + 1]) == Next(Apply(index, steps[..i]), steps[i])
  {
    assert steps[..i + 1][..i] == steps[..i];
  }

  /**
   * Loading `files` into `index`: it fails exactly when some file is
   * unreadable or holds an invalid definition, with that file's error.
   */
  function Load(index: Index, files: seq<DefinitionFile>): (r: (Index, Option<LoadError>))
    ensures r.1.None? <==> forall i :: 0 <= i < |files| ==> !FileStep(files[i]).Fail?
    ensures r.1.Some? ==> exists i :: 0 <= i < |files| && FileStep(files[i]) == Fail(r.1.value)
  {
    var steps := Steps(files);
    ApplyFails(index, steps);
    Apply(index, steps)
  }

  /** A run fails exactly when one of its steps does, and with the error of one. */
  lemma {:induction false} ApplyFails(index: Index, steps: seq<Step>)
    ensures Apply(index, steps).1.None? <==> forall j :: 0 <= j < |steps| ==> !steps[j].Fail?
    ensures Apply(index, steps).1.Some? ==> exists j :: 0 <= j < |steps| && steps[j] == Fail(Apply(index, steps).1.value)
    decreases |steps|
  {
    if steps != [] {
      var front := steps[..|steps| - 1];
      ApplyFails(index, front);
      Text.FrontIndex(steps);
      if Apply(index, front).1.Some? {
        var j :| 0 <= j < |front| && front[j] == Fail(Apply(index, front).1.value);
        assert steps[j] == front[j];
      }
    }
  }

  /** Some step adds a definition under `stem`. */
  predicate Adds(steps: seq<Step>, stem: string) {
    exists i :: 0 <= i < |steps| && steps[i].Add? && steps[i].stem == stem
  }

  /** Once a run has failed, later steps change nothing. */
  lemma {:induction false} FailureSticks(index: Index, steps: seq<Step>, p: nat)
    requires p <= |steps| && Apply(index, steps[..p]).1.Some?
    ensures Apply(index, steps) == Apply(index, steps[..p])
    decreases |steps| - p
  {
    if p < |steps| {
      var front := steps[..|steps| - 1];
      assert front[..p] == steps[..p];
      FailureSticks(index, front, p);
    } else {
      assert steps[..p] == steps;
    }
  }

  /**
   * A failed run stops at its first failing step: the error is that step's,
   * and the index holds exactly what the steps before it added.
   */
  lemma {:induction false} StopsAtFailure(index: Index, steps: seq<Step>) returns (p: nat)
    requires Apply(index, steps).1.Some?
    ensures p < |steps| && steps[p].Fail?
    ensures Apply(index, steps[..p]).1.None?
    ensures Apply(index, steps) == (Apply(index, steps[..p]).0, Some(steps[p].error))
    decreases |steps|
  {
    var front := steps[..|steps| - 1];
    if Apply(index, front).1.Some? {
      p := StopsAtFailure(index, front);
      assert front[..p] == steps[..p];
    } else {
      p := |steps| - 1;
      assert steps[..p] == front;
    }
  }

  /**
   * A successful run's index holds a key exactly when the starting index
   * held it or some step added a definition under that stem.
   */
  lemma {:induction false} LoadedKeys(index: Index, steps: seq<Step>, k: string)
    requires Apply(index, steps).1.None?
    ensures OrderedDict.HasKey(Apply(index, steps).0, k) <==> OrderedDict.HasKey(index, k) || Adds(steps, k)
    decreases |steps|
  {
    if steps != [] {
      var front := steps[..|steps| - 1];
      var last := steps[|steps| - 1];
      LoadedKeys(index, front, k);
      if last.Add? {
        OrderedDict.PutHasKey(Apply(index, front).0, last.stem, last.definition, k);
      }
      AddsLast(steps, k);
    }
  }

  /** A run adds under a stem when its front does or its last step does. */
  lemma AddsLast(steps: seq<Step>, k: string)
    requires steps != []
    ensures Adds(steps, k) <==> Adds(steps[..|steps| - 1], k) || (steps[|steps| - 1].Add? && steps[|steps| - 1].stem == k)
  {
    var front := steps[..|steps| - 1];
    if Adds(steps, k) && !Adds(front, k) {
      var i :| 0 <= i < |steps| && steps[i].Add? && steps[i].stem == k;
    }
    if Adds(front, k) {
      var i :| 0 <= i < |front| && front[i].Add? && front[i].stem == k;
      assert steps[i] == front[i];
    }
  }

  /**
   * Of several steps adding under the same stem, the last one decides what
   * the stem maps to.
   */
  lemma {:induction false} LastAddWins(index: Index, steps: seq<Step>, i: nat)
    requires Apply(index, steps).1.None?
    requires i < |steps| && steps[i].Add?
    requires forall j :: i < j < |steps| && steps[j].Add? ==> steps[j].stem != steps[i].stem
    ensures OrderedDict.Get(Apply(index, steps).0, steps[i].stem) == Some(steps[i].definition)
    decreases |steps|
  {
    var front := steps[..|steps| - 1];
    var last := steps[|steps| - 1];
    if i < |steps| - 1 {
      assert front[i] == steps[i];
      LastAddWins(index, front, i);
      if last.Add? {
        OrderedDict.PutOther(Apply(index, front).0, last.stem, last.definition, steps[i].stem);
      }
    }
  }

  /** A file that holds a valid, enabled definition. */
  predicate EnabledFile(f: DefinitionFile) {
    f.content.Document? && BuildDefinition(f.content.raw).Ok? && BuildDefinition(f.content.raw).value.enabled
  }

  /** A file adds a definition only under its own stem, and only a valid, enabled one. */
  lemma FileStepAdds(f: DefinitionFile)
    requires FileStep(f).Add?
    ensures EnabledFile(f) && FileStep(f).stem == f.stem
  {
  }

  /** A file holding a valid, enabled definition adds it under its stem. */
  lemma EnabledFileAdds(f: DefinitionFile)
    requires EnabledFile(f)
    ensures FileStep(f) == Add(f.stem, BuildDefinition(f.content.raw).value)
  {
  }

  /** After a successful load into an empty index, every enabled file's stem is a key. */
  lemma EnabledFileIndexed(files: seq<DefinitionFile>, i: nat)
    requires Load([], files).1.None?
    requires i < |files| && EnabledFile(files[i])
    ensures OrderedDict.HasKey(Load([], files).0, files[i].stem)
  {
    var steps := Steps(files);
    EnabledFileAdds(files[i]);
    assert steps[i].Add? && steps[i].stem == files[i].stem;
    LoadedKeys([], steps, files[i].stem);
  }

  /** After a successful load into an empty index, every key is the stem of an enabled file. */
  lemma IndexedStemIsEnabledFile(files: seq<DefinitionFile>, stem: string) returns (i: nat)
    requires Load([], files).1.None?
    requires OrderedDict.HasKey(Load([], files).0, stem)
    ensures i < |files| && files[i].stem == stem && EnabledFile(files[i])
  {
    var steps := Steps(files);
    LoadedKeys([], steps, stem);
    i :| 0 <= i < |steps| && steps[i].Add? && steps[i].stem == stem;
    FileStepAdds(files[i]);
  }

  /** Every definition in the index is enabled, if it was so before the load. */
  lemma LoadOnlyEnabled(index: Index, files: seq<DefinitionFile>)
    requires forall i :: 0 <= i < |index| ==> index[i].1.enabled
    ensures forall i :: 0 <= i < |Load(index, files).0| ==> Load(index, files).0[i].1.enabled
  {
    AppliedEnabled(index, Steps(files));
  }

  /** Steps that add only enabled definitions keep an index of enabled definitions. */
  lemma {:induction false} AppliedEnabled(index: Index, steps: seq<Step>)
    requires forall i :: 0 <= i < |index| ==> index[i].1.enabled
    requires forall j :: 0 <= j < |steps| && steps[j].Add? ==> steps[j].definition.enabled
    ensures forall i :: 0 <= i < |Apply(index, steps).0| ==> Apply(index, steps).0[i].1.enabled
    decreases |steps|
  {
    if steps != [] {
      var front := steps[..|steps| - 1];
      var last := steps[|steps| - 1];
      Text.FrontIndex(steps);
      AppliedEnabled(index, front);
      var m := Apply(index, front).0;
      if Apply(index, front).1.None? && last.Add? {
        OrderedDict.PutPairs(m, last.stem, last.definition);
      }
    }
  }

  /** A load never puts a stem into the index twice. */
  lemma {:induction false} LoadValid(index: Index, steps: seq<Step>)
    requires OrderedDict.Valid(index)
    ensures OrderedDict.Valid(Apply(index, steps).0)
    decreases |steps|
  {
    if steps != [] {
      var front := steps[..|steps| - 1];
      var last := steps[|steps| - 1];
      LoadValid(index, front);
      if Apply(index, front).1.None? && last.Add? {
        OrderedDict.PutValid(Apply(index, front).0, last.stem, last.definition);
      }
    }
  }

  /** The position of the first definition whose lower-cased trigger starts `text`, or `|defs|`. */
  function FirstTriggerIndex(defs: seq<QueryDefinition>, text: string): nat
    decreases |defs|
  {
    if defs == [] || IsPrefix(Lower(defs[0].trigger), text) then 0
    else 1 + FirstTriggerIndex(defs[1..], text)
  }

  /** The scan stops at the first trigger that starts the text, and passes over no such trigger. */
  lemma {:induction false} FirstTriggerIndexSpec(defs: seq<QueryDefinition>, text: string)
    ensures FirstTriggerIndex(defs, text) <= |defs|
    ensures FirstTriggerIndex(defs, text) < |defs| ==> IsPrefix(Lower(defs[FirstTriggerIndex(defs, text)].trigger), text)
    ensures forall j :: 0 <= j < FirstTriggerIndex(defs, text) ==> !IsPrefix(Lower(defs[j].trigger), text)
    decreases |defs|
  {
    if defs != [] && !IsPrefix(Lower(defs[0].trigger), text) {
      FirstTriggerIndexSpec(defs[1..], text);
      forall j | 1 <= j < FirstTriggerIndex(defs, text) ensures !IsPrefix(Lower(defs[j].trigger), text) {
        assert defs[j] == defs[1..][j - 1];
      }
    }
  }

  /**
   * `get_query_by_trigger`'s scan: nothing is found exactly when no
   * lower-cased trigger starts `text`, and otherwise the definition where the
   * scan stopped.
   */
  function FirstTriggerMatch(defs: seq<QueryDefinition>, text: string): (r: Option<QueryDefinition>)
    ensures r.None? <==> forall i :: 0 <= i < |defs| ==> !IsPrefix(Lower(defs[i].trigger), text)
    ensures r.Some? ==> FirstTriggerIndex(defs, text) < |defs| && defs[FirstTriggerIndex(defs, text)] == r.value
  {
    FirstTriggerIndexSpec(defs, text);
    var i := FirstTriggerIndex(defs, text);
    if i < |defs| then Some(defs[i]) else None
  }

  /** What is found is the first definition, in index order, whose trigger starts the text. */
  lemma TriggerMatchIsFirst(defs: seq<QueryDefinition>, text: string)
    requires FirstTriggerMatch(defs, text).Some?
    ensures var i := FirstTriggerIndex(defs, text);
      && i < |defs| && defs[i] == FirstTriggerMatch(defs, text).value
      && IsPrefix(Lower(defs[i].trigger), text)
      && forall j :: 0 <= j < i ==> !IsPrefix(Lower(defs[j].trigger), text)
  {
    FirstTriggerIndexSpec(defs, text);
  }

  class QueryLoader {
    const queriesDir: string
    var queries: Index

    /** An index with nothing loaded yet. */
    constructor (dir: string)
      ensures queriesDir == dir && queries == []
    {
      queriesDir := dir;
      queries := [];
    }

    /**
     * `_load_all_queries`: adds every enabled definition under its stem and
     * re-raises the first failure, keeping what was added before it.
     */
    method LoadAllQueries(listing: Listing) returns (err: Option<LoadError>)
      modifies this
      ensures (queries, err) == Load(old(queries), Files(listing))
    {
      if !listing.Directory? {
        return None;
      }
      var files := listing.yamlFiles + listing.ymlFiles;
      if files == [] {
        return None;
      }
      err := LoadFiles(files);
    }

    /** The loop of `_load_all_queries` over the definition files, stopping at the first failure. */
    method LoadFiles(files: seq<DefinitionFile>) returns (err: Option<LoadError>)
      modifies this
      ensures (queries, err) == Apply(old(queries), Steps(files))
    {
      ghost var steps := Steps(files);
      err := None;
      var i := 0;
      while i < |files|
        invariant 0 <= i <= |files|
        invariant err == None && (queries, None) == Apply(old(queries), steps[..i])
      {
        ApplyPrefix(old(queries), steps, i);
        err := LoadFile(files[i]);
        if err.Some? {
          FailureSticks(old(queries), steps, i + 1);
          return;
        }
        i := i + 1;
      }
      WholeSlice(steps);
    }

    /** One file of the loop: skipped, added under its stem, or the failure to re-raise. */
    method LoadFile(f: DefinitionFile) returns (failure: Option<LoadError>)
      modifies this
      ensures (queries, failure) == Next((old(queries), None), FileStep(f))
    {
      match FileStep(f) {
        case Skip =>
          failure := None;
        case Add(stem, d) =>
          queries := OrderedDict.Put(queries, stem, d);
          failure := None;
        case Fail(e) =>
          failure := Some(e);
      }
    }

    /** `reload`: empties the index, then loads again. */
    method Reload(listing: Listing) returns (err: Option<LoadError>)
      modifies this
      ensures (queries, err) == Load([], Files(listing))
    {
      queries := [];
      err := LoadAllQueries(listing);
    }

    /** `get_query_by_id`. */
    function GetQueryById(queryId: string): (r: Option<QueryDefinition>)
      reads this
      ensures r.Some? <==> OrderedDict.HasKey(queries, queryId)
      ensures r.Some? ==> (queryId, r.value) in queries
    {
      OrderedDict.Get(queries, queryId)
    }

    /**
     * `get_query_by_trigger`: the text is lower-cased, then stripped; the
     * first held definition whose lower-cased trigger starts it, if any.
     */
    function GetQueryByTrigger(text: string): (r: Option<QueryDefinition>)
      reads this
      ensures r.None? <==> forall i :: 0 <= i < |queries| ==> !IsPrefix(Lower(queries[i].1.trigger), Strip(Lower(text)))
      ensures r.Some? ==>
        exists i :: (0 <= i < |queries| && queries[i].1 == r.value
          && IsPrefix(Lower(r.value.trigger), Strip(Lower(text)))
          && forall j :: 0 <= j < i ==> !IsPrefix(Lower(queries[j].1.trigger), Strip(Lower(text))))
    {
      var vs := OrderedDict.Values(queries);
      var t := Strip(Lower(text));
      var r := FirstTriggerMatch(vs, t);
      if r.Some? then
        TriggerMatchIsFirst(vs, t);
        assert queries[FirstTriggerIndex(vs, t)].1 == r.value;
        r
      else r
    }

    /** `get_all_queries`: the definitions in index order. */
    function GetAllQueries(): (r: seq<QueryDefinition>)
      reads this
      ensures |r| == |queries|
      ensures forall i :: 0 <= i < |r| ==> r[i] == queries[i].1
    {
      OrderedDict.Values(queries)
    }
  }

  /**
   * `QueryLoader(queries_dir)`: resolves the directory, then loads it unless
   * it is missing. `fs` is the file system, seen as the listing of a path.
   */
  method Open(arg: Option<string>, env: map<string, string>, fs: string -> Listing)
    returns (r: Result<QueryLoader, InitError>)
    ensures ResolveDir(arg, env).Err? ==> r == Err(NoDirectory(NO_DIRECTORY))
    ensures ResolveDir(arg, env).Ok? ==>
      var dir := ResolveDir(arg, env).value;
      var (index, err) := Load([], Files(fs(dir)));
      && (err.Some? <==> r.Err?)
      && (err.Some? ==> r == Err(LoadFailed(err.value)))
      && (r.Ok? ==> fresh(r.value) && r.value.queriesDir == dir && r.value.queries == index)
  {
    var dir := ResolveDir(arg, env);
    if dir.Err? {
      return Err(NoDirectory(dir.error));
    }
    var loader := new QueryLoader(dir.value);
    var listing := fs(dir.value);
    if listing.Missing? {
      return Ok(loader);
    }
    var err := loader.LoadAllQueries(listing);
    if err.Some? {
      return Err(LoadFailed(err.value));
    }
    return Ok(loader);
  }
}
