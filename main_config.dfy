/**
 * The configuration rules of the entry script: command-line overrides,
 * the input/output index mappings, the shuffle rule, which callback is
 * built and with what `extra_vars`, the sampling run, and the MODE
 * dispatch. Loading data and models, training and predicting are
 * framework calls and appear only as parameters.
 */
module MainConfig {
  import opened Wrappers
  import opened Text
  import opened KeyOrder
  import opened MapUpdates
  import opened ReadWrite
  import opened EarlyStopping
  import opened Callbacks

  /** The values `ast.literal_eval` can produce, as far as the rules below look at them. */
  datatype PyValue =
    | PyNone
    | PyBool(b: bool)
    | PyInt(i: int)
    | PyStr(s: string)
    | PyList(items: seq<PyValue>)
    | PyTuple(items: seq<PyValue>)
    | PyDict(keys: seq<PyValue>)
    | PyOther                // any other value, such as a float

  type Params = map<string, PyValue>

  // ---------------------------------------------------------------------
  // Command-line overrides
  // ---------------------------------------------------------------------

  /**
   * `k, v = arg.split('=')`: the unpacking succeeds only when `arg` holds
   * exactly one '=', and then `arg` is `k + '=' + v`.
   */
  function OverrideParts(arg: string): (r: Option<(string, string)>)
    ensures r.Some? <==> Occurrences(arg, '=') == 1
    ensures r.Some? ==> '=' !in r.value.0 && '=' !in r.value.1 && arg == r.value.0 + "=" + r.value.1
  {
    var parts := Split(arg, '=');
    JoinOfSplit(arg, '=');
    if |parts| == 2 then
      assert Join(parts, '=') == parts[0] + "=" + parts[1];
      Some((parts[0], parts[1]))
    else None
  }

  /** The parameter name an argument assigns (the empty name when it is malformed). */
  function KeyOf(arg: string): string {
    match OverrideParts(arg)
    case Some(kv) => kv.0
    case None => ""
  }

  /** The literal text an argument assigns (empty when it is malformed). */
  function ValueTextOf(arg: string): string {
    match OverrideParts(arg)
    case Some(kv) => kv.1
    case None => ""
  }

  /** An argument the loop accepts: one '=', and a value `literal_eval` accepts. */
  predicate Accepted(arg: string, literal: string -> Option<PyValue>) {
    OverrideParts(arg).Some? && literal(ValueTextOf(arg)).Some?
  }

  /** The assignments `params[k] = ast.literal_eval(v)` the loop makes, in order. */
  function OverridePairs(args: seq<string>, literal: string -> Option<PyValue>): seq<(string, PyValue)>
    requires forall i :: 0 <= i < |args| ==> Accepted(args[i], literal)
  {
    seq(|args|, i requires 0 <= i < |args| && Accepted(args[i], literal) =>
      (KeyOf(args[i]), literal(ValueTextOf(args[i])).value))
  }

  /** One more accepted argument adds its assignment. */
  lemma OverridePairsSnoc(args: seq<string>, i: nat, literal: string -> Option<PyValue>)
    requires i < |args| && forall j :: 0 <= j <= i ==> Accepted(args[j], literal)
    ensures OverridePairs(args[..i + 1], literal)
         == OverridePairs(args[..i], literal) + [(KeyOf(args[i]), literal(ValueTextOf(args[i])).value)]
  {
    assert args[..i + 1] == args[..i] + [args[i]];
  }

  /**
   * The override loop of `__main__`: every argument must be accepted,
   * otherwise the script exits with status 1; the accepted ones are
   * assigned in order.
   */
  method ApplyOverrides(params: Params, args: seq<string>, literal: string -> Option<PyValue>)
    returns (r: Result<Params, PyError>)
    ensures r.Ok? <==> forall i :: 0 <= i < |args| ==> Accepted(args[i], literal)
    ensures r.Err? ==> r.error == SystemExit(1)
    ensures r.Ok? ==> r.value == Updates(params, OverridePairs(args, literal))
  {
    var current := params;
    var i := 0;
    while i < |args|
      invariant 0 <= i <= |args|
      invariant forall j :: 0 <= j < i ==> Accepted(args[j], literal)
      invariant current == Updates(params, OverridePairs(args[..i], literal))
    {
      var parts := OverrideParts(args[i]);
      if parts.None? {
        return Err(SystemExit(1));
      }
      var value := literal(ValueTextOf(args[i]));
      if value.None? {
        return Err(SystemExit(1));
      }
      OverridePairsSnoc(args, i, literal);
      UpdatesSnoc(params, OverridePairs(args[..i], literal), (KeyOf(args[i]), value.value));
      current := current[KeyOf(args[i]) := value.value];
      i := i + 1;
    }
    assert args[..i] == args;
    r := Ok(current);
  }

  /** A later override of the same key wins. */
  lemma OverrideLastWins(params: Params, args: seq<string>, literal: string -> Option<PyValue>, i: nat)
    requires forall j :: 0 <= j < |args| ==> Accepted(args[j], literal)
    requires i < |args|
    requires forall j :: i < j < |args| ==> KeyOf(args[j]) != KeyOf(args[i])
    ensures var r := Updates(params, OverridePairs(args, literal));
      KeyOf(args[i]) in r && r[KeyOf(args[i])] == literal(ValueTextOf(args[i])).value
  {
    UpdatesLastWins(params, OverridePairs(args, literal), i);
  }

  /** A parameter no argument names keeps its loaded value, and no other key appears. */
  lemma OverrideKeys(params: Params, args: seq<string>, literal: string -> Option<PyValue>, k: string)
    requires forall j :: 0 <= j < |args| ==> Accepted(args[j], literal)
    ensures var r := Updates(params, OverridePairs(args, literal));
      (k in r <==> k in params || exists j :: 0 <= j < |args| && KeyOf(args[j]) == k)
      && ((forall j :: 0 <= j < |args| ==> KeyOf(args[j]) != k) && k in params ==> r[k] == params[k])
  {
    var kvs := OverridePairs(args, literal);
    UpdatesKeys(params, kvs);
    var named := set j | 0 <= j < |kvs| :: kvs[j].0;
    if forall j :: 0 <= j < |args| ==> KeyOf(args[j]) != k {
      UpdatesUntouched(params, kvs, k);
    }
    if k in named {
      var j :| 0 <= j < |kvs| && kvs[j].0 == k;
      assert KeyOf(args[j]) == k;
    }
    if exists j :: 0 <= j < |args| && KeyOf(args[j]) == k {
      var j :| 0 <= j < |args| && KeyOf(args[j]) == k;
      assert kvs[j].0 == k;
    }
  }

  // ---------------------------------------------------------------------
  // Input and output mappings
  // ---------------------------------------------------------------------

  /** `xs.index(x)`: the first position holding `x`; a ValueError when there is none. */
  function IndexOf(xs: seq<string>, x: string): (r: Result<nat, PyError>)
    ensures r.Ok? <==> x in xs
    ensures r.Ok? ==> r.value < |xs| && xs[r.value] == x && forall j :: 0 <= j < r.value ==> xs[j] != x
    ensures r.Err? ==> r.error.ValueError?
    decreases |xs|
  {
    if xs == [] then Err(ValueError("is not in list"))
    else if xs[0] == x then Ok(0)
    else
      match IndexOf(xs[1..], x)
      case Err(e) => Err(e)
      case Ok(k) => Ok(k + 1)
  }

  /** The mapping loop runs to its end: every id is found and a model id exists at each position. */
  predicate Mappable(ids: seq<string>, datasetIds: seq<string>, modelIds: seq<string>) {
    |ids| <= |modelIds| && forall i :: 0 <= i < |ids| ==> ids[i] in datasetIds
  }

  /** The assignments `mapping[model_ids[i]] = dataset_ids.index(ids[i])`, in order. */
  function MappingPairs(ids: seq<string>, datasetIds: seq<string>, modelIds: seq<string>): seq<(string, nat)>
    requires Mappable(ids, datasetIds, modelIds)
  {
    seq(|ids|, i requires 0 <= i < |ids| && Mappable(ids, datasetIds, modelIds) =>
      (modelIds[i], IndexOf(datasetIds, ids[i]).value))
  }

  /**
   * One mapping loop of `train_model`: position i of the parameter ids
   * gives the model's i-th id the dataset position of that id. A missing
   * id raises ValueError, too few model ids IndexError.
   */
  method BuildMapping(ids: seq<string>, datasetIds: seq<string>, modelIds: seq<string>)
    returns (r: Result<map<string, nat>, PyError>)
    ensures r.Ok? <==> Mappable(ids, datasetIds, modelIds)
    ensures r.Err? ==> r.error.ValueError? || r.error.IndexError?
    ensures r.Ok? ==> r.value == Updates(map[], MappingPairs(ids, datasetIds, modelIds))
  {
    var mapping: map<string, nat> := map[];
    var i := 0;
    while i < |ids|
      invariant 0 <= i <= |ids|
      invariant Mappable(ids[..i], datasetIds, modelIds)
      invariant mapping == Updates(map[], MappingPairs(ids[..i], datasetIds, modelIds))
    {
      var pos := IndexOf(datasetIds, ids[i]);
      if pos.Err? {
        return Err(pos.error);
      }
      if i >= |modelIds| {
        return Err(IndexError("list index out of range"));
      }
      assert ids[..i + 1][..i] == ids[..i];
      assert Mappable(ids[..i + 1], datasetIds, modelIds);
      assert MappingPairs(ids[..i + 1], datasetIds, modelIds)
          == MappingPairs(ids[..i], datasetIds, modelIds) + [(modelIds[i], pos.value)];
      UpdatesSnoc(map[], MappingPairs(ids[..i], datasetIds, modelIds), (modelIds[i], pos.value));
      mapping := mapping[modelIds[i] := pos.value];
      i := i + 1;
    }
    assert ids[..i] == ids;
    r := Ok(mapping);
  }

  /**
   * What a mapping holds: exactly the model ids of the positions used,
   * each (unless a later position reuses it) sent to the FIRST dataset
   * position of its parameter id.
   */
  lemma MappingMeaning(ids: seq<string>, datasetIds: seq<string>, modelIds: seq<string>, i: nat)
    requires Mappable(ids, datasetIds, modelIds) && i < |ids|
    requires forall j :: i < j < |ids| ==> modelIds[j] != modelIds[i]
    ensures var m := Updates(map[], MappingPairs(ids, datasetIds, modelIds));
      m.Keys == (set j | 0 <= j < |ids| :: modelIds[j])
      && modelIds[i] in m && IndexOf(datasetIds, ids[i]) == Ok(m[modelIds[i]])
  {
    var kvs := MappingPairs(ids, datasetIds, modelIds);
    UpdatesKeys(map[], kvs);
    UpdatesLastWins(map[], kvs, i);
    var named := set j | 0 <= j < |kvs| :: kvs[j].0;
    var positions := set j | 0 <= j < |ids| :: modelIds[j];
    assert named == positions by {
      forall x | x in positions ensures x in named {
        var j :| 0 <= j < |ids| && modelIds[j] == x;
        assert kvs[j].0 == x;
      }
      forall x | x in named ensures x in positions {
        var j :| 0 <= j < |kvs| && kvs[j].0 == x;
        assert modelIds[j] == x;
      }
    }
  }

  /**
   * The mappings of `train_model`: a new model (RELOAD == 0) gets both, the
   * input mapping built first; a reloaded model keeps its own.
   */
  method SetUpMappings(reload: int, inIds: seq<string>, datasetInputs: seq<string>, modelInputs: seq<string>,
                       outIds: seq<string>, datasetOutputs: seq<string>, modelOutputs: seq<string>)
    returns (r: Result<Option<(map<string, nat>, map<string, nat>)>, PyError>)
    ensures reload != 0 ==> r == Ok(None)
    ensures reload == 0 ==>
      (r.Ok? <==> Mappable(inIds, datasetInputs, modelInputs) && Mappable(outIds, datasetOutputs, modelOutputs))
    ensures reload == 0 && r.Ok? ==> r.value == Some((Updates(map[], MappingPairs(inIds, datasetInputs, modelInputs)),
                                                       Updates(map[], MappingPairs(outIds, datasetOutputs, modelOutputs))))
  {
    if reload != 0 {
      return Ok(None);
    }
    var inputs := BuildMapping(inIds, datasetInputs, modelInputs);
    if inputs.Err? {
      return Err(inputs.error);
    }
    var outputs := BuildMapping(outIds, datasetOutputs, modelOutputs);
    if outputs.Err? {
      return Err(outputs.error);
    }
    r := Ok(Some((inputs.value, outputs.value)));
  }

  // ---------------------------------------------------------------------
  // The shuffle rule
  // ---------------------------------------------------------------------

  /** `p` occurs in `s` at position `i`. */
  predicate OccursAt(s: string, p: string, i: int) {
    0 <= i && i + |p| <= |s| && s[i..i + |p|] == p
  }

  /** Python's `p in s` on strings, scanning from the left. */
  function HasSubstring(s: string, p: string): bool
    decreases |s|
  {
    if |s| < |p| then false
    else if s[..|p|] == p then true
    else HasSubstring(s[1..], p)
  }

  /** The scan finds `p` exactly when it occurs somewhere. */
  lemma {:induction false} HasSubstringSpec(s: string, p: string)
    ensures HasSubstring(s, p) <==> exists i :: OccursAt(s, p, i)
    decreases |s|
  {
    if |s| >= |p| && s[..|p|] != p {
      HasSubstringSpec(s[1..], p);
      if HasSubstring(s, p) {
        var i :| OccursAt(s[1..], p, i);
        assert s[i + 1..i + 1 + |p|] == s[1..][i..i + |p|];
        assert OccursAt(s, p, i + 1);
      }
      if exists i :: OccursAt(s, p, i) {
        var i :| OccursAt(s, p, i);
        assert i != 0 by {
          assert s[0..|p|] == s[..|p|];
        }
        assert s[1..][i - 1..i - 1 + |p|] == s[i..i + |p|];
        assert OccursAt(s[1..], p, i - 1);
      }
    } else if |s| >= |p| {
      assert OccursAt(s, p, 0) by {
        assert s[0..|p|] == s[..|p|];
      }
    }
  }

  /** `item in container` for the values EVAL_ON_SETS can hold; a non-container raises a TypeError. */
  function Contains(container: PyValue, item: string): Result<bool, PyError> {
    match container
    case PyList(xs) => Ok(PyStr(item) in xs)
    case PyTuple(xs) => Ok(PyStr(item) in xs)
    case PyDict(ks) => Ok(PyStr(item) in ks)
    case PyStr(s) => Ok(HasSubstring(s, item))
    case _ => Err(TypeError("argument of type is not iterable"))
  }

  /** `'shuffle': False if 'train' in params['EVAL_ON_SETS'] else True`. */
  function Shuffle(evalOnSets: PyValue): (r: Result<bool, PyError>)
    ensures r.Err? <==> Contains(evalOnSets, "train").Err?
  {
    match Contains(evalOnSets, "train")
    case Err(e) => Err(e)
    case Ok(found) => Ok(!found)
  }

  /** The list of split names as `literal_eval` returns it. */
  function SetList(sets: seq<string>): PyValue {
    PyList(seq(|sets|, i requires 0 <= i < |sets| => PyStr(sets[i])))
  }

  /** For a list of split names, training data is shuffled exactly when 'train' is not evaluated. */
  lemma ShuffleOfSetList(sets: seq<string>)
    ensures Shuffle(SetList(sets)) == Ok("train" !in sets)
  {
    var xs := SetList(sets).items;
    if "train" in sets {
      var i :| 0 <= i < |sets| && sets[i] == "train";
      assert xs[i] == PyStr("train");
    }
    if PyStr("train") in xs {
      var i :| 0 <= i < |xs| && xs[i] == PyStr("train");
      assert sets[i] == "train";
    }
  }

  /** For a single string, the test is a substring test. */
  lemma ShuffleOfString(s: string)
    ensures Shuffle(PyStr(s)) == Ok(!exists i :: OccursAt(s, "train", i))
  {
    HasSubstringSpec(s, "train");
  }

  // ---------------------------------------------------------------------
  // Building the callbacks
  // ---------------------------------------------------------------------

  /** The training parameters `buildCallbacks` reads, typed. */
  datatype TrainParams = TrainParams(
    metrics: seq<string>,
    evalEachEpochs: bool,
    evalOnSets: seq<string>,
    evalEach: int,
    reload: nat,
    startEvalOnEpoch: int,
    samplingSaveMode: string,
    earlyStop: bool,
    patience: int,
    stopMetric: string,
    verbose: int,
    parallelLoaders: PyValue,
    outputIds: seq<string>)

  /** An entry of `extra_vars`. */
  datatype ExtraEntry = Loaders(loaders: PyValue) | References(refs: PyValue) | ClassCount(count: nat)

  /** A metric callback as constructed: its class, its configuration and its `extra_vars`. */
  datatype Built = Built(perEpoch: bool, cfg: EvalConfig, eachN: int, reloadEpoch: nat, startEvalOnEpoch: int,
                         extraVars: map<string, ExtraEntry>)

  /**
   * The configuration both callback classes receive: predictions always
   * written, in the model's directory. The `extra_vars` built here hold
   * 'n_parallel_loaders' and, per split, only a 'references' entry.
   */
  function ConfigOf(p: TrainParams, modelPath: string): EvalConfig {
    EvalConfig(p.evalOnSets, p.metrics, modelPath, true, p.samplingSaveMode, true, {}, {},
               p.earlyStop, p.patience, p.stopMetric, p.verbose)
  }

  /**
   * What `extra_vars` holds after the loop over `sets`: 'n_parallel_loaders',
   * an entry per split and, when there was a split and the class dictionary
   * is not empty, 'n_classes'. Each entry has the value of its last
   * assignment.
   */
  ghost predicate ExtraVarsOf(extra: map<string, ExtraEntry>, loaders: PyValue, sets: seq<string>,
                              references: string -> Option<PyValue>, nClasses: nat)
    requires forall i :: 0 <= i < |sets| ==> references(sets[i]).Some?
  {
    && extra.Keys == {"n_parallel_loaders"} + (set i | 0 <= i < |sets| :: sets[i])
                     + (if sets != [] && nClasses > 0 then {"n_classes"} else {})
    && ("n_parallel_loaders" !in sets ==> extra["n_parallel_loaders"] == Loaders(loaders))
    && (forall i :: 0 <= i < |sets| && (sets[i] != "n_classes" || nClasses == 0) ==>
          extra[sets[i]] == References(references(sets[i]).value))
    && (sets != [] && nClasses > 0 ==> extra["n_classes"] == ClassCount(nClasses))
  }

  /** One iteration of the `extra_vars` loop: the split's references, then the class count. */
  function ExtraStep(extra: map<string, ExtraEntry>, s: string, refs: PyValue, nClasses: nat): map<string, ExtraEntry> {
    var withRefs := extra[s := References(refs)];
    if nClasses > 0 then withRefs["n_classes" := ClassCount(nClasses)] else withRefs
  }

  /** The loop step keeps `ExtraVarsOf` for one more split. */
  lemma ExtraVarsStep(extra: map<string, ExtraEntry>, loaders: PyValue, sets: seq<string>, i: nat,
                      references: string -> Option<PyValue>, nClasses: nat)
    requires i < |sets| && forall j :: 0 <= j <= i ==> references(sets[j]).Some?
    requires ExtraVarsOf(extra, loaders, sets[..i], references, nClasses)
    ensures ExtraVarsOf(ExtraStep(extra, sets[i], references(sets[i]).value, nClasses), loaders, sets[..i + 1],
                        references, nClasses)
  {
    var prefix := sets[..i + 1];
    assert prefix == sets[..i] + [sets[i]];
    var before := set j | 0 <= j < i :: sets[j];
    var after := set j | 0 <= j < |prefix| :: prefix[j];
    assert (set j | 0 <= j < |sets[..i]| :: sets[..i][j]) == before;
    assert after == before + {sets[i]} by {
      forall x | x in after ensures x in before + {sets[i]} {
        var j :| 0 <= j < |prefix| && prefix[j] == x;
        if j < i {
          assert sets[j] == x;
        }
      }
      assert prefix[i] == sets[i];
    }
  }

  /**
   * `buildCallbacks`: nothing without metrics; otherwise `extra_vars` is
   * filled split by split and exactly one callback is built, per epoch when
   * EVAL_EACH_EPOCHS holds and per update otherwise. `references(s)` stands
   * for the dataset's references of split `s` (a KeyError when absent),
   * `nClasses` for the size of the class dictionary (0 when it is missing
   * or empty). Each split is looked up before OUTPUTS_IDS_DATASET's `[0]`
   * is read: with that list empty the first split raises, KeyError if it
   * lacks references and IndexError otherwise, and no later split is read.
   */
  method BuildCallbacks(p: TrainParams, modelPath: string, references: string -> Option<PyValue>, nClasses: nat)
    returns (r: Result<seq<Built>, PyError>)
    ensures p.metrics == [] ==> r == Ok([])
    ensures p.metrics != [] ==>
      (r.Ok? <==> p.outputIds != [] && forall i :: 0 <= i < |p.evalOnSets| ==> references(p.evalOnSets[i]).Some?)
    ensures p.metrics != [] && p.outputIds == [] && (p.evalOnSets == [] || references(p.evalOnSets[0]).Some?)
      ==> r == Err(IndexError("list index out of range"))
    ensures p.metrics != [] && p.outputIds != [] && r.Err? ==>
      exists i :: 0 <= i < |p.evalOnSets| && r == Err(KeyError(p.evalOnSets[i])) && references(p.evalOnSets[i]).None?
        && forall j :: 0 <= j < i ==> references(p.evalOnSets[j]).Some?
    ensures p.metrics != [] && p.evalOnSets != [] && references(p.evalOnSets[0]).None? ==> r == Err(KeyError(p.evalOnSets[0]))
    ensures p.metrics != [] && r.Ok? ==>
      |r.value| == 1
      && r.value[0].perEpoch == p.evalEachEpochs
      && r.value[0].cfg == ConfigOf(p, modelPath)
      && r.value[0].eachN == p.evalEach && r.value[0].reloadEpoch == p.reload
      && r.value[0].startEvalOnEpoch == p.startEvalOnEpoch
      && ExtraVarsOf(r.value[0].extraVars, p.parallelLoaders, p.evalOnSets, references, nClasses)
  {
    if p.metrics == [] {
      return Ok([]);
    }
    var sets := p.evalOnSets;
    var extra: map<string, ExtraEntry> := map["n_parallel_loaders" := Loaders(p.parallelLoaders)];
    var i := 0;
    while i < |sets|
      invariant 0 <= i <= |sets|
      invariant forall j :: 0 <= j < i ==> references(sets[j]).Some?
      invariant p.outputIds == [] ==> i == 0
      invariant ExtraVarsOf(extra, p.parallelLoaders, sets[..i], references, nClasses)
    {
      var refs := references(sets[i]);
      if refs.None? {
        return Err(KeyError(sets[i]));
      }
      if p.outputIds == [] {
        return Err(IndexError("list index out of range"));
      }
      ExtraVarsStep(extra, p.parallelLoaders, sets, i, references, nClasses);
      extra := ExtraStep(extra, sets[i], refs.value, nClasses);
      i := i + 1;
    }
    assert sets[..i] == sets;
    if p.outputIds == [] {
      return Err(IndexError("list index out of range"));
    }
    r := Ok([Built(p.evalEachEpochs, ConfigOf(p, modelPath), p.evalEach, p.reload, p.startEvalOnEpoch, extra)]);
  }

  /**
   * The callbacks built here never find question ids: with the 'vqa' write
   * type, evaluating a split fails when its predictions are stored.
   */
  lemma BuiltVqaFails(p: TrainParams, modelPath: string, s: string, counter: nat)
    requires p.samplingSaveMode == "vqa"
    ensures StoreWrites(ConfigOf(p, modelPath), s, counter) == Err(KeyError("question_ids"))
  {
  }

  // ---------------------------------------------------------------------
  // The sampling run
  // ---------------------------------------------------------------------

  /** What `apply_Clas_model` reads. */
  datatype SamplingParams = SamplingParams(
    evalOnSets: seq<string>,
    metrics: seq<string>,
    samplingSaveMode: string,
    modelPath: string,
    inputIds: seq<string>,
    outputIds: seq<string>)

  /** What a run did: the files written, and the exception that ended it, if any. */
  datatype Outcome = Outcome(writes: seq<FileWrite>, error: Option<PyError>)

  /** `model_path + '/' + s + '.pred'`. */
  function SamplingPredictionPath(modelPath: string, s: string): string {
    modelPath + "/" + s + ".pred"
  }

  /** `model_path + '/' + s + '_sampling.' + metric`. */
  function SamplingMetricPath(modelPath: string, s: string, metric: string): string {
    modelPath + "/" + s + "_sampling." + metric
  }

  /** The metric file of a sampling run: overwritten with the header line and the value line. */
  ghost function SamplingMetricWrite(modelPath: string, s: string, metric: string, m: Metrics): FileWrite {
    var rows := Rows([], [], m);
    FileWrite(SamplingMetricPath(modelPath, s, metric), Overwrite, Text(rows.0 + "\n" + rows.1 + "\n"))
  }

  /**
   * One split: the predictions stored through `list2file` (any other save
   * mode raises), then one metric file per metric; the references lookup
   * raises a KeyError for a split the dataset has none for. `rendered(s)`
   * is `str()` of the split's predictions.
   */
  ghost function SamplingSplit(sp: SamplingParams, s: string, rendered: string -> string,
                               references: string -> Option<PyValue>, evaluate: (string, string) -> Metrics): Outcome
  {
    if sp.samplingSaveMode != "list" then
      Outcome([], Some(Exception("Only \"list\" is allowed in \"SAMPLING_SAVE_MODE\"")))
    else
      match List2File(SamplingPredictionPath(sp.modelPath, s), rendered(s), Overwrite)
      case Err(e) => Outcome([], Some(e))
      case Ok(w) => SamplingMetrics(sp, s, references, evaluate, w)
  }

  /** The metric files of one split, one per metric, in order. */
  ghost function SamplingMetricWrites(sp: SamplingParams, s: string, evaluate: (string, string) -> Metrics): seq<FileWrite> {
    seq(|sp.metrics|, i requires 0 <= i < |sp.metrics| =>
      SamplingMetricWrite(sp.modelPath, s, sp.metrics[i], evaluate(s, sp.metrics[i])))
  }

  /**
   * After the predictions write `w`: the metric files, unless the split has
   * no references, which raises at the first metric.
   */
  ghost function SamplingMetrics(sp: SamplingParams, s: string, references: string -> Option<PyValue>,
                                 evaluate: (string, string) -> Metrics, w: FileWrite): Outcome
  {
    if sp.metrics == [] then Outcome([w], None)
    else if references(s).None? then Outcome([w], Some(KeyError(s)))
    else Outcome([w] + SamplingMetricWrites(sp, s, evaluate), None)
  }

  /** `SamplingSplit` for fixed parameters, as a function of the split. */
  ghost function SplitOf(sp: SamplingParams, rendered: string -> string,
                         references: string -> Option<PyValue>, evaluate: (string, string) -> Metrics): string -> Outcome
  {
    s => SamplingSplit(sp, s, rendered, references, evaluate)
  }

  /** The splits in order, stopping at the first exception. */
  ghost function SamplingSets(sets: seq<string>, split: string -> Outcome): Outcome
    decreases |sets|
  {
    if sets == [] then Outcome([], None)
    else
      var q := split(sets[0]);
      if q.error.Some? then q
      else
        var r := SamplingSets(sets[1..], split);
        Outcome(q.writes + r.writes, r.error)
  }

  /** `apply_Clas_model` after loading: the vocabulary lookups read INPUTS_IDS_DATASET[0] and OUTPUTS_IDS_DATASET[0] first. */
  ghost function Sampling(sp: SamplingParams, rendered: string -> string,
                          references: string -> Option<PyValue>, evaluate: (string, string) -> Metrics): Outcome
  {
    if sp.inputIds == [] || sp.outputIds == [] then Outcome([], Some(IndexError("list index out of range")))
    else SamplingSets(sp.evalOnSets, SplitOf(sp, rendered, references, evaluate))
  }

  /** The metric file the loop writes from the rows it built. */
  lemma SamplingMetricWriteOf(modelPath: string, s: string, metric: string, m: Metrics, header: string, line: string)
    requires (header, line) == Rows([], [], m)
    ensures SamplingMetricWrite(modelPath, s, metric, m)
         == FileWrite(SamplingMetricPath(modelPath, s, metric), Overwrite, Text(header + "\n" + line + "\n"))
  {
  }

  /** The loop over the metrics of one split, after its predictions write `w`. */
  method SampleMetrics(sp: SamplingParams, s: string, references: string -> Option<PyValue>,
                       evaluate: (string, string) -> Metrics, w: FileWrite)
    returns (o: Outcome)
    ensures o == SamplingMetrics(sp, s, references, evaluate, w)
  {
    var writes := [w];
    ghost var spec := SamplingMetricWrites(sp, s, evaluate);
    var j := 0;
    while j < |sp.metrics|
      invariant 0 <= j <= |sp.metrics|
      invariant j > 0 ==> references(s).Some?
      invariant writes == [w] + spec[..j]
    {
      var refs := references(s);
      if refs.None? {
        return Outcome(writes, Some(KeyError(s)));
      }
      var metric := sp.metrics[j];
      var metrics := evaluate(s, metric);
      var header, line := BuildRows([], [], metrics);
      SamplingMetricWriteOf(sp.modelPath, s, metric, metrics, header, line);
      assert spec[j] == SamplingMetricWrite(sp.modelPath, s, metric, metrics);
      assert spec[..j + 1] == spec[..j] + [spec[j]];
      writes := writes + [FileWrite(SamplingMetricPath(sp.modelPath, s, metric), Overwrite, Text(header + "\n" + line + "\n"))];
      j := j + 1;
    }
    assert spec[..j] == spec;
    o := Outcome(writes, None);
  }

  /** One split of the sampling run: store the predictions, then the metric files. */
  method SampleSplit(sp: SamplingParams, s: string, rendered: string -> string,
                     references: string -> Option<PyValue>, evaluate: (string, string) -> Metrics)
    returns (o: Outcome)
    ensures o == SamplingSplit(sp, s, rendered, references, evaluate)
  {
    if sp.samplingSaveMode != "list" {
      return Outcome([], Some(Exception("Only \"list\" is allowed in \"SAMPLING_SAVE_MODE\"")));
    }
    var stored := List2File(SamplingPredictionPath(sp.modelPath, s), rendered(s), Overwrite);
    if stored.Err? {
      return Outcome([], Some(stored.error));
    }
    o := SampleMetrics(sp, s, references, evaluate, stored.value);
  }

  /** `apply_Clas_model` from the vocabulary lookup on: the loop over EVAL_ON_SETS. */
  method SamplingRun(sp: SamplingParams, rendered: string -> string,
                     references: string -> Option<PyValue>, evaluate: (string, string) -> Metrics)
    returns (o: Outcome)
    ensures o == Sampling(sp, rendered, references, evaluate)
  {
    if sp.inputIds == [] || sp.outputIds == [] {
      return Outcome([], Some(IndexError("list index out of range")));
    }
    var sets := sp.evalOnSets;
    ghost var split := SplitOf(sp, rendered, references, evaluate);
    ghost var whole := SamplingSets(sets, split);
    var written: seq<FileWrite> := [];
    var i := 0;
    while i < |sets|
      invariant 0 <= i <= |sets|
      invariant var rest := SamplingSets(sets[i..], split);
        whole == Outcome(written + rest.writes, rest.error)
    {
      assert sets[i..][1..] == sets[i + 1..];
      var q := SampleSplit(sp, sets[i], rendered, references, evaluate);
      assert q == split(sets[i]);
      if q.error.Some? {
        assert SamplingSets(sets[i..], split) == q;
        return Outcome(written + q.writes, q.error);
      }
      ghost var rest := SamplingSets(sets[i + 1..], split);
      assert written + q.writes + rest.writes == written + (q.writes + rest.writes);
      written := written + q.writes;
      i := i + 1;
    }
    o := Outcome(written, None);
  }

  /**
   * A sampling metric file holds two lines: the metric names in sorted
   * order, then as many values, each cell followed by a comma.
   */
  lemma SamplingMetricFile(modelPath: string, s: string, metric: string, m: Metrics)
    requires forall k :: k in m ==> ',' !in k && ',' !in m[k].text
    ensures var w := SamplingMetricWrite(modelPath, s, metric, m);
      var rows := Rows([], [], m);
      w.mode == Overwrite && w.payload == Text(rows.0 + "\n" + rows.1 + "\n")
      && Split(rows.0, ',') == SortedListing(m.Keys) + [""]
      && |Split(rows.1, ',')| == |m.Keys| + 1
  {
    RowsReadBack([], [], m);
    SortedListingSpec(m.Keys);
    assert [] + SortedListing(m.Keys) + [""] == SortedListing(m.Keys) + [""];
  }

  /** Only the 'list' save mode is accepted: any other fails at the first split, before writing. */
  lemma SamplingNeedsListMode(sp: SamplingParams, rendered: string -> string,
                              references: string -> Option<PyValue>, evaluate: (string, string) -> Metrics)
    requires sp.samplingSaveMode != "list" && sp.inputIds != [] && sp.outputIds != [] && sp.evalOnSets != []
    ensures Sampling(sp, rendered, references, evaluate)
         == Outcome([], Some(Exception("Only \"list\" is allowed in \"SAMPLING_SAVE_MODE\"")))
  {
  }

  /** Every write of `ws` overwrites its file. */
  predicate AllOverwrite(ws: seq<FileWrite>) {
    forall k :: 0 <= k < |ws| ==> ws[k].mode == Overwrite
  }

  /** Every file one split writes is overwritten. */
  lemma SamplingSplitOverwrites(sp: SamplingParams, s: string, rendered: string -> string,
                                references: string -> Option<PyValue>, evaluate: (string, string) -> Metrics)
    ensures AllOverwrite(SamplingSplit(sp, s, rendered, references, evaluate).writes)
  {
    var ws := SamplingSplit(sp, s, rendered, references, evaluate).writes;
    forall k | 0 <= k < |ws| ensures ws[k].mode == Overwrite {
      if k > 0 {
        assert ws[k] == SamplingMetricWrite(sp.modelPath, s, sp.metrics[k - 1], evaluate(s, sp.metrics[k - 1]));
      }
    }
  }

  /** A sampling run overwrites every file it writes, unlike the training callbacks, which append. */
  lemma {:induction false} SamplingOverwrites(sp: SamplingParams, sets: seq<string>, rendered: string -> string,
                                              references: string -> Option<PyValue>, evaluate: (string, string) -> Metrics)
    ensures AllOverwrite(SamplingSets(sets, SplitOf(sp, rendered, references, evaluate)).writes)
    decreases |sets|
  {
    if sets != [] {
      var split := SplitOf(sp, rendered, references, evaluate);
      SamplingSplitOverwrites(sp, sets[0], rendered, references, evaluate);
      SamplingOverwrites(sp, sets[1..], rendered, references, evaluate);
      var q := split(sets[0]);
      var r := SamplingSets(sets[1..], split);
      var ws := SamplingSets(sets, split).writes;
      if q.error.None? {
        assert ws == q.writes + r.writes;
        forall k | 0 <= k < |ws| ensures ws[k].mode == Overwrite {
          if k >= |q.writes| {
            assert ws[k] == r.writes[k - |q.writes|];
          } else {
            assert ws[k] == q.writes[k];
          }
        }
      }
    }
  }

  // ---------------------------------------------------------------------
  // MODE dispatch
  // ---------------------------------------------------------------------

  datatype Action = Train | Sample | Neither

  /** `params['MODE']`: 'training' trains, 'sampling' samples, anything else does neither. */
  function Dispatch(params: Params): (r: Result<Action, PyError>)
    ensures r.Err? <==> "MODE" !in params
    ensures r == Ok(Train) <==> "MODE" in params && params["MODE"] == PyStr("training")
    ensures r == Ok(Sample) <==> "MODE" in params && params["MODE"] == PyStr("sampling")
  {
    if "MODE" !in params then Err(KeyError("MODE"))
    else if params["MODE"] == PyStr("training") then Ok(Train)
    else if params["MODE"] == PyStr("sampling") then Ok(Sample)
    else Ok(Neither)
  }

  /** A last `MODE='sampling'` argument selects the sampling run, whatever the configuration said. */
  lemma OverrideSelectsSampling(params: Params, args: seq<string>, literal: string -> Option<PyValue>)
    requires args != [] && forall j :: 0 <= j < |args| ==> Accepted(args[j], literal)
    requires KeyOf(args[|args| - 1]) == "MODE"
    requires literal(ValueTextOf(args[|args| - 1])) == Some(PyStr("sampling"))
    ensures Dispatch(Updates(params, OverridePairs(args, literal))) == Ok(Sample)
  {
    OverrideLastWins(params, args, literal, |args| - 1);
  }
}
