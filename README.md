# Text-classification harness: callbacks, configuration and file helpers

This project is a Dafny model of the deterministic core of a Keras-based
text-classification harness, together with proofs about that model. The
core covers:

- the **metric callbacks** (`PrintPerformanceMetricOnEpochEnd`,
  `PrintPerformanceMetricEachNUpdates`), which include:
  - their evaluation schedules;
  - the prediction and metric file paths;
  - the comma-separated metric rows;
  - the early-stop bookkeeping (best score, `wait` counter and the
    trainer's `stop_training` flag);
- the **sampling callback** (`SampleEachNUpdates`) schedule and the lines
  it prints;
- the **learning-rate reducer** (`ReduceLearningRate`);
- the **file helpers** of `utils/read_write.py`: `_dirac`, `file2list`,
  `list2vqa`, `dict2file`, and the `'\n'.join(str(...))` step of
  `list2file`;
- the **entry script** `main.py`:
  - `key=value` command-line overrides;
  - the input/output index mappings;
  - the `shuffle` rule;
  - callback selection and `extra_vars` in `buildCallbacks`;
  - the sampling run of `apply_Clas_model`;
  - the `MODE` dispatch;
- the **GloVe preprocessing** loop `glove2npy`.

Style follows the source. The callback objects become Dafny classes:
- `EpochEvaluator`, `UpdateEvaluator` and `LearningRateReducer`, whose
  mutable fields the source updates between calls (the update counter on
  every batch, the early-stop fields only on the evaluations and epochs
  that change them);
- `Sampler`, whose fields are only read after construction;
- a `Trainer` holding `stop_training`.

Their methods are proved equal to ghost specification functions over
their state. Loops become methods with invariants, proved against
recursive or comprehension-defined specifications. Pure logic becomes
functions and lemmas.

The modelling choices are:
- A file write is a `FileWrite(path, mode, payload)` value. A run returns
  the writes it made and the Python exception that ended it, if any
  (`PyError`: `KeyError`, `IndexError`, `ValueError`,
  `UnboundLocalError`, `AttributeError`, `ZeroDivisionError`,
  `NotImplementedError`, `SystemExit`, ...).
- Scores are `real`, and `str()` of a metric value is a given string.
- Python's `%` takes the sign of the divisor. `sorted()` on strings is
  lexicographic code-point order.
- Framework results are function parameters: predictions, metric
  evaluation, `ast.literal_eval`, float conversion, references.

Modules:

| file | module | models |
|---|---|---|
| wrappers.dfy | Wrappers | `Option`, `Result`, Python exceptions |
| text.dfy | Text | `str.strip`, `str.split()`, `str.split(sep)`, `sep.join`, comma rows |
| decimal.dfy | Decimal | `str(n)` of a natural number |
| key_order.dfy | KeyOrder | `sorted()` of dictionary keys |
| map_updates.dfy | MapUpdates | a dictionary filled by `d[k] = v` in a loop |
| read_write.dfy | ReadWrite | `utils/read_write.py` helpers |
| early_stopping.dfy | EarlyStopping | best-score / patience transitions |
| callbacks.dfy | Callbacks | the four callbacks of `utils/callbacks.py` |
| main_config.dfy | MainConfig | the configuration logic of `main.py` |
| glove.dfy | Glove | `glove2npy` |

Two details of the early-stop logic, which the model keeps as written:
- In `PrintPerformanceMetricEachNUpdates`, `self.model.stop_training = True`
  (utils/callbacks.py:365) sits inside the `if self.verbose > 0:` branch,
  as it does in the epoch class. So with `verbose <= 0` neither metric
  callback ever stops training.
- The `wait` counter grows by one on every non-improving evaluation,
  whether or not the stop flag is raised, unless the check raises
  AttributeError first (no best counter recorded yet, `verbose > 0` and
  `wait >= patience`).

## Model

| member | source | states |
|---|---|---|
| Callbacks.PyMod | utils/callbacks.py:82 | Python's `%`: in the dividend's residue class modulo the divisor, of the divisor's sign and smaller in magnitude, which fixes its value; zero exactly when the divisor divides the dividend |
| Callbacks.EpochDue | utils/callbacks.py:76-85 | the epoch callback evaluates exactly when the effective epoch has reached `start_eval_on_epoch` and the distance is a multiple of `each_n_epochs`; a zero period raises ZeroDivisionError only once the start is reached |
| Callbacks.EpochDuePeriodic | utils/callbacks.py:82 | after an evaluated epoch, the next evaluated one is exactly `each_n_epochs` later |
| Callbacks.EpochHeaderAtStart | utils/callbacks.py:78-85 | the start epoch is evaluated and no earlier epoch is |
| Callbacks.EpochHeaderNeedsUnitPeriod | utils/callbacks.py:170-171 | with `start_eval_on_epoch` 0, an evaluated epoch meets the header condition `epoch == 1 or epoch == start` exactly when it is epoch 1 and `each_n_epochs` is 1 or -1; with any other period no header is written |
| Callbacks.UpdateDue | utils/callbacks.py:255-259 | the update callback evaluates exactly when the update count is a multiple of `each_n_updates` and the epoch has reached the start; a zero period raises before the epoch test |
| Callbacks.SampleDue | utils/callbacks.py:413-418 | the sampling callback fires exactly when the shifted update count has reached the start and is a multiple of `each_n_updates` |
| Callbacks.StoreFormatOf | utils/callbacks.py:132-147 | the four known write types are accepted and any other raises NotImplementedError; only 'numpy' chooses the `.np` extension |
| Callbacks.PredictionPathInjective | utils/callbacks.py:137 | two different counters never give the same prediction path |
| Callbacks.BuildRows | utils/callbacks.py:164-169 | the loop over `sorted(metrics)` builds the header and value rows of the specification `Rows` |
| Callbacks.CellsStep | utils/callbacks.py:168-169 | one iteration appends one name (or value) and one comma |
| Callbacks.RowsReadBack | utils/callbacks.py:164-172 | splitting the header on ',' gives the leading cells, every metric name in sorted order, and a trailing empty field; the value row has the same width |
| Callbacks.StoreWrites | utils/callbacks.py:131-147 | without `write_samples` nothing is written; with it the store succeeds exactly for 'list', 'listoflists', 'numpy', and 'vqa' on a split with question ids that `int()` accepts, writing one overwritten predictions file at the prediction path; an unknown type raises, a vqa split without question ids raises KeyError and one with a bad id ValueError |
| Callbacks.EvaluateSplit | utils/callbacks.py:88-193 | one split's pass (store, metric rows, early-stop check) equals the specification `SplitPass` |
| Callbacks.RunSets | utils/callbacks.py:88-193 | the loop over the splits equals `SetsPass`: splits in order, stopping at the first exception |
| Callbacks.SetsPassRunsObservations | utils/callbacks.py:88-193 | a pass over the splits that raises nothing leaves the early-stop state the fold `Run` gives over its checks: one per validation split, in split order, with the last metric's stop score and the pass's counter |
| Callbacks.OneValidationSplitObservesOnce | utils/callbacks.py:176-193 | a successful pass over one validation split makes exactly one early-stop check, with that split's score |
| Callbacks.StateKeptOffValidation | utils/callbacks.py:176-193 | over splits none of which is a validation split (or with early stopping off) the early-stop state is unchanged; the pass succeeds exactly when `n_parallel_loaders` is present (or there are no splits) and every store succeeds |
| Callbacks.StopScoreFromLastMetric | utils/callbacks.py:150-178 | the stop score is read from the metrics of the LAST metric evaluated for the split |
| Callbacks.WellModedWiden | utils/callbacks.py:131-172 | a write of that form for some splits keeps the form for a larger list of splits |
| Callbacks.SplitWritesModed | utils/callbacks.py:131-172 | every write of one split's pass overwrites a predictions file or appends to a metric file of that split |
| Callbacks.SplitPassWrites | utils/callbacks.py:131-172 | one split's writes are its stored predictions followed by its metric rows |
| Callbacks.WriteModes | utils/callbacks.py:131-172 | every write of a whole evaluation overwrites a predictions file or appends to a metric file of one of its splits |
| Callbacks.Trainer.constructor | utils/callbacks.py:190 | training starts without the stop flag |
| Callbacks.EpochEvaluator.constructor | utils/callbacks.py:56-73 | a new epoch callback has best score -1, no best epoch and a zero wait counter |
| Callbacks.EpochEvaluator.OnEpochEnd | utils/callbacks.py:75-193 | the new best score, best epoch, wait counter and stop flag, and the files written, are those of the specification `EpochEnd` of the old state |
| Callbacks.UpdateHeaderOnlyAtFirstMultiple | utils/callbacks.py:345-346 | since the update count starts at 1, the header condition holds only at the counter `each_n_updates`; for a positive period that counter is the first due one once the start epoch is reached, and when the start epoch is not reached there, no header is ever written |
| Callbacks.UpdateEvaluator.constructor | utils/callbacks.py:230-249 | a new update callback has counted no updates and starts at epoch `reload_epoch + 1` |
| Callbacks.UpdateEvaluator.OnEpochEnd | utils/callbacks.py:251-252 | only the epoch counter moves, by one |
| Callbacks.UpdateEvaluator.OnBatchEnd | utils/callbacks.py:254-368 | the update count moves by one, and the new early-stop state and the writes are those of `BatchEnd` |
| Callbacks.PairsUpTo | utils/callbacks.py:471-473 | two lines per pair printed |
| Callbacks.PairLines | utils/callbacks.py:471 | `zip` stops at the shorter list: two lines per pair |
| Callbacks.PairsUpToAt | utils/callbacks.py:471-473 | line 2i is the hypothesis of pair i and line 2i+1 its reference |
| Callbacks.SampleLines | utils/callbacks.py:471-473 | the printing loop emits, for each zipped pair, its hypothesis and reference lines, in order |
| Callbacks.Sampler.constructor | utils/callbacks.py:373-410 | the sampler keeps its configuration |
| Callbacks.Sampler.OnBatchEnd | utils/callbacks.py:412-473 | outside the schedule nothing is printed; a missing `n_parallel_loaders` raises KeyError; otherwise every set's pairs are printed |
| Callbacks.AllSampleLinesCount | utils/callbacks.py:421-473 | the lines printed are twice the number of zipped pairs over all sets |
| Callbacks.LearningRateReducer.constructor | utils/callbacks.py:483-502 | a new reducer has best score -1, nothing waited and no reduction counted |
| Callbacks.LearningRateReducer.OnEpochEnd | utils/callbacks.py:504-522 | the new state is `ReduceObserve` of the old one on `val_acc` |
| EarlyStopping.ObserveCases | utils/callbacks.py:177-193 | an improvement is exactly a strictly greater score; otherwise the best is kept and wait grows by exactly one, and the stop flag is raised only when wait was already at `patience` or more and verbose > 0 |
| EarlyStopping.RunSucceeds | utils/callbacks.py:186-189 | once a best counter is recorded, or without logging, no check raises AttributeError |
| EarlyStopping.NonImprovingRun | utils/callbacks.py:185-193 | over checks none of which beats the best, wait grows by their number and the flag is raised exactly when the last check found wait at `patience` or more |
| EarlyStopping.QuietNeverStops | utils/callbacks.py:187-190 | with verbose <= 0 the stop flag never changes |
| EarlyStopping.BestIsMaximum | utils/callbacks.py:179-180 | the best score is the maximum of the initial best and the scores checked, and it is one of them unless it is the initial one |
| EarlyStopping.BestRecordedAtFirstReach | utils/callbacks.py:179-182 | the recorded best epoch is that of the FIRST check reaching the best score |
| EarlyStopping.ReduceNonImproving | utils/callbacks.py:514-522 | over non-improving epochs the reducer counts one reduction per epoch whose wait had reached `patience`, and stops with early stopping on exactly when there was one |
| EarlyStopping.ReduceSkipsMissing | utils/callbacks.py:505-509 | epochs without `val_acc` leave the reducer unchanged |
| EarlyStopping.ReductionsExceedAnyLimit | utils/callbacks.py:516-517 | `reduce_nb` is never consulted: the count grows past any limit |
| ReadWrite.Dirac | utils/read_write.py:17-18 | 1 exactly when prediction and ground truth are equal, else 0 |
| ReadWrite.NonEmpty | utils/read_write.py:25-27 | a filtered list holds only non-empty entries of the input |
| ReadWrite.File2List | utils/read_write.py:23-29 | the result holds only non-empty, stripped lines, no more than there were |
| ReadWrite.File2ListAppend | utils/read_write.py:23-29 | reading two parts of a file gives the concatenation of their results |
| ReadWrite.File2ListSingle | utils/read_write.py:25-27 | a single line is kept stripped unless it is blank |
| ReadWrite.File2ListMembers | utils/read_write.py:23-29 | a string is in the result exactly when it is non-empty and is some line stripped |
| ReadWrite.File2ListIdempotent | utils/read_write.py:23-29 | applying the filter to its own output changes nothing |
| ReadWrite.List2Vqa | utils/read_write.py:53-58 | one record per zipped pair with the answer and the integer question id; a failing `int()` raises |
| ReadWrite.EntryRoundTrip | utils/read_write.py:169 | a `key:value` entry splits back into its key and value when neither contains ':' |
| ReadWrite.Dict2Lines | utils/read_write.py:169-174 | the optional title first, then one `key:value` line per item, in order |
| ReadWrite.NewlineJoin | utils/read_write.py:46 | joining a string's characters doubles its length less one |
| ReadWrite.NewlineJoinAt | utils/read_write.py:46 | even positions hold the characters, odd ones newlines |
| ReadWrite.NewlineJoinInverse | utils/read_write.py:46 | the characters at even positions give the rendered list back |
| ReadWrite.List2File | utils/read_write.py:45-50 | an empty rendering raises at `mylist[0]`; otherwise one write, to the path and in the given mode, of the newline-join of the rendering, whose even positions give the rendering back |
| ReadWrite.Dict2File | utils/read_write.py:160-175 | the dictionary lines are appended through `list2file` |
| KeyOrder.LessTransitive | utils/callbacks.py:166 | the string order `sorted()` uses is transitive |
| KeyOrder.LessTotal | utils/callbacks.py:166 | and total |
| KeyOrder.SortedListingSpec | utils/callbacks.py:166 | `sorted()` of a key set is strictly increasing and lists exactly the keys |
| KeyOrder.SortedListingUnique | utils/callbacks.py:166 | it is the only such listing |
| KeyOrder.SortKeys | utils/callbacks.py:166 | the selection loop returns that listing |
| Decimal.DigitsValueOfNatToString | utils/callbacks.py:165 | `str()` of a counter reads back as the counter |
| Decimal.NatToStringInjective | utils/callbacks.py:137 | different counters print differently |
| Text.StripIdempotent | utils/read_write.py:26 | stripping twice is stripping once |
| Text.StripSlice | utils/read_write.py:26 | `strip` returns the slice between the leading and the trailing whitespace: only whitespace is removed, and the result neither starts nor ends with whitespace |
| Text.Words | utils/preprocess_glove_vectors.py:21 | `split()` yields non-empty tokens free of whitespace |
| Text.WordsOfJoin | utils/preprocess_glove_vectors.py:21 | splitting tokens joined by single spaces gives the tokens back |
| Text.Split | main.py:218 | `split('=')` yields one more part than there are separators, none containing one |
| Text.JoinOfSplit | main.py:218 | joining the parts with the separator gives the argument back |
| Text.SplitOfJoin | main.py:218 | splitting separator-free parts joined by it gives the parts back |
| Text.RowRoundTrip | utils/callbacks.py:164-172 | a comma row splits back into its cells and a trailing empty field |
| Text.RowWidth | utils/callbacks.py:164-169 | a row whose cells hold no comma has exactly one comma per cell |
| MapUpdates.UpdatesKeys | main.py:217-219 | a dictionary filled by assignments has its starting keys and every key assigned |
| MapUpdates.UpdatesLastWins | main.py:219 | the last assignment to a key wins |
| MapUpdates.UpdatesUntouched | main.py:219 | a key never assigned keeps its value |
| MapUpdates.UpdatesSize | utils/preprocess_glove_vectors.py:24 | n assignments add at most n keys |
| MainConfig.OverrideParts | main.py:218 | the unpacking `k, v = arg.split('=')` succeeds exactly when the argument has one '=', and the argument is `k=v` |
| MainConfig.ApplyOverrides | main.py:216-222 | any malformed argument or failing literal exits with status 1; otherwise the parameters are the loaded ones with each override assigned in order |
| MainConfig.OverrideLastWins | main.py:217-219 | the last override of a key decides its value |
| MainConfig.OverrideKeys | main.py:217-219 | keys after overriding are the loaded ones plus those named; an unnamed key keeps its loaded value |
| MainConfig.IndexOf | main.py:40 | `list.index` returns the first position holding the value and raises ValueError when there is none |
| MainConfig.BuildMapping | main.py:38-50 | a mapping loop succeeds exactly when every id is found and enough model ids exist, and assigns the model ids in order |
| MainConfig.MappingMeaning | main.py:38-50 | the mapping's keys are the model ids used; each maps to `dataset_ids.index(id)` unless a later position reuses it |
| MainConfig.SetUpMappings | main.py:32-54 | a new model builds input then output mapping; a reloaded model builds none |
| MainConfig.HasSubstringSpec | main.py:69 | `'train' in s` on a string is a substring test |
| MainConfig.Shuffle | main.py:69 | the shuffle rule raises exactly when the test `in` raises |
| MainConfig.ShuffleOfSetList | main.py:69 | for a list of split names, data is shuffled exactly when 'train' is not one of them |
| MainConfig.ShuffleOfString | main.py:69 | for a string, shuffling is off whenever 'train' occurs in it |
| MainConfig.ExtraVarsStep | main.py:158-162 | one loop step keeps the `extra_vars` description for one more split |
| MainConfig.BuildCallbacks | main.py:153-201 | no metrics gives no callback; otherwise it fails exactly when OUTPUTS_IDS_DATASET is empty or a split lacks references; with OUTPUTS_IDS_DATASET empty the first split raises, KeyError naming it if it lacks references and IndexError otherwise (also with no splits); with it non-empty the first split that lacks references raises KeyError naming it; else builds exactly one callback of the class EVAL_EACH_EPOCHS selects, with the parameters passed and the `extra_vars` described |
| MainConfig.BuiltVqaFails | main.py:159-160 | the `extra_vars` built hold no question ids, so the 'vqa' write type fails when predictions are stored |
| MainConfig.SampleMetrics | main.py:121-145 | the metric loop of one split writes one overwritten results file per metric, in order, after the predictions, and raises KeyError at the first metric when the split has no references |
| MainConfig.SampleSplit | main.py:105-145 | one split of the sampling run equals the specification `SamplingSplit` |
| MainConfig.SamplingRun | main.py:91-145 | the whole sampling run equals `Sampling`: the vocabulary lookups first, then the splits in order until the first exception |
| MainConfig.SamplingMetricFile | main.py:136-144 | a sampling metric file is overwritten with the sorted metric names and the same number of values |
| MainConfig.SamplingNeedsListMode | main.py:115-118 | a save mode other than 'list' raises at the first split before anything is written |
| MainConfig.SamplingSplitOverwrites | main.py:116-136 | one split of a sampling run only overwrites |
| MainConfig.SamplingOverwrites | main.py:116-136 | a sampling run only overwrites |
| MainConfig.Dispatch | main.py:224-229 | 'training' trains, 'sampling' samples, any other MODE does neither; a missing MODE raises KeyError |
| MainConfig.OverrideSelectsSampling | main.py:216-229 | a last `MODE='sampling'` argument selects the sampling run |
| Glove.DropLast | utils/preprocess_glove_vectors.py:16 | `x[:-1]` drops exactly the last character, and keeps an empty line empty |
| Glove.DropLastOfLine | utils/preprocess_glove_vectors.py:16 | a line read with its newline gives back exactly the line |
| Glove.LineEntry | utils/preprocess_glove_vectors.py:21-23 | a line with no token raises IndexError at `v[0]`; otherwise the first token is the key and the rest convert to the vector |
| Glove.CheckpointsSpec | utils/preprocess_glove_vectors.py:26-27 | progress is reported at every multiple of 1000 up to the number of lines, and nowhere else, in increasing order |
| Glove.CheckpointsStep | utils/preprocess_glove_vectors.py:25-27 | one processed line adds a report exactly when the counter reaches a multiple of 1000 |
| Glove.EntriesSnoc | utils/preprocess_glove_vectors.py:20-24 | one more parsed line adds its entry |
| Glove.Glove2Dict | utils/preprocess_glove_vectors.py:16-27 | the loop succeeds exactly when every line parses; the first failing line's error ends it; the dictionary is the entries assigned in order, the counter the number of lines and the reports its multiples of 1000 |
| Glove.EntryWords | utils/preprocess_glove_vectors.py:22-24 | each entry's key is its line's first token |
| Glove.GloveSize | utils/preprocess_glove_vectors.py:24 | there are at most as many entries as lines |
| Glove.GloveKeys | utils/preprocess_glove_vectors.py:22-24 | the keys are exactly the first tokens of the lines |
| Glove.GloveLastWins | utils/preprocess_glove_vectors.py:24 | a repeated word keeps the vector of its last line |
| Glove.WellFormedLine | utils/preprocess_glove_vectors.py:16-23 | a line of space-separated word and values ended by a newline parses into that word and those values |
| Glove.DropLastOfJoin | utils/preprocess_glove_vectors.py:16 | dropping the last character of a joined line shortens only its last token |
| Glove.LastLineWithoutNewline | utils/preprocess_glove_vectors.py:16-21 | a last line without a newline loses the last character of its final value |

## Left out

- Framework calls are not modelled; their results are parameters of the model. They include:
  - `predictNet` and `BeamSearchNet`;
  - the `decode_predictions*` functions;
  - the `evaluation.select[metric]` metrics;
  - `trainNet`, `loadModel`, `setOptimizer`;
  - `build_dataset` and `Text_Classification_Model`.
- The metric evaluation returns a dictionary from names to values. A value is modelled by its score and by the text `str()` gives it, because floating-point formatting is not modelled.
- The beam-search option copying from `extra_vars` (utils/callbacks.py:94-112, 267-285 and 429-446) is left out. It passes opaque options to the framework.
- File and system I/O is modelled only as `FileWrite` records:
  - opening files, `np.save`, `json.dump`, `numpy2file`;
  - `h5py` and pickling;
  - `create_dir_if_not_exists`.
- The contents of the list, vqa, listoflists and numpy prediction files the callbacks write are not modelled. Only their path, mode and split are, so the IndexError `list2file` raises on an empty rendering is not modelled there.
- Logging, `print` of progress and `warnings.warn` are left out. The glove progress reports are recorded as the counter values at which they print.
- The Python 2 `unicode` re-encoding in `list2file` is left out, because strings here are sequences of characters.
- `check_params` only logs warnings, so it is left out.
- `train_model` beyond the mappings and the shuffle rule is left out: dataset building, the training parameters and the call to `trainNet`.
- `apply_Clas_model` is modelled from its vocabulary lookups on. `vocabulary_len`, the `tokenize_f` evaluation and prediction are framework calls.
- Callbacks.StoreWrites: a `vqa` store raises KeyError("question_ids") when the split's `extra_vars` entry has no question ids. The model does not tell the split entry missing from the `question_ids` key missing. It also does not model a non-dictionary entry, which would raise TypeError instead. The question ids are not modelled one by one: a split whose paired ids include one `int()` rejects is given as a set, and its store raises ValueError.
- MainConfig.BuildCallbacks, MainConfig.SampleMetrics: the references lookup `dataset.extra_variables[s][id]` is one parameter. Its KeyError always names the split, also where the source's KeyError would name the output id because the split is present without it.
- MainConfig.BuildCallbacks: the parameters are typed, and `nClasses` is 0 when the class dictionary is missing or empty.
- Glove.Glove2Dict: float conversion is a parameter that may fail with ValueError. The vectors are opaque values.
- EarlyStopping.ObserveCases, Callbacks.EpochHeaderAtStart, Callbacks.StopScoreFromLastMetric, Callbacks.SplitPassWrites, Callbacks.EpochHeaderNeedsUnitPeriod, Callbacks.OneValidationSplitObservesOnce, MainConfig.BuiltVqaFails and MainConfig.SamplingNeedsListMode: these lemmas follow from the definitions without a proof body. They document the behaviour and add no proof.
- Integer widths do not matter here: the counters are Python integers, which do not overflow.
