/**
 * The training callbacks: when they evaluate, which files they write and
 * with what rows, and how they keep the early-stop state.
 *
 * The framework calls (predicting, decoding, computing a metric) are
 * parameters: `evaluate(split, metric)` is the dictionary a metric returns
 * for a split, and a split's predictions are recorded by name only.
 */
module Callbacks {
  import opened Wrappers
  import opened Text
  import opened Decimal
  import opened KeyOrder
  import opened ReadWrite
  import opened EarlyStopping

  /** One entry of a metric result: its score and its `str()` as written to file. */
  datatype MetricValue = MetricValue(score: real, text: string)

  type Metrics = map<string, MetricValue>

  /**
   * Python's `a % b` for `b != 0`: the remainder takes the sign of the
   * divisor. It is zero exactly when Dafny's (Euclidean) remainder is.
   */
  function PyMod(a: int, b: int): (r: int)
    requires b != 0
    ensures (r == 0) <==> (a % b == 0)
    ensures r % b == a % b
    ensures b > 0 ==> 0 <= r < b
    ensures b < 0 ==> b < r <= 0
  {
    var m := a % b;
    if b < 0 && m != 0 then ModShift(m, b); m + b else m
  }

  /** Moving a remainder by a negative divisor keeps it in its residue class. */
  lemma ModShift(m: int, b: int)
    requires b < 0 && 0 < m < -b
    ensures (m + b) % b == m
  {
  }

  // ---------------------------------------------------------------------
  // Schedules
  // ---------------------------------------------------------------------

  /** The epoch number the epoch callback works with: from 1, after the reloaded epochs. */
  function EpochCounter(epoch: nat, reloadEpoch: nat): nat {
    epoch + 1 + reloadEpoch
  }

  /**
   * Whether the epoch callback evaluates at epoch number `e`: not before
   * `start_eval_on_epoch`, and then every `each_n_epochs` epochs from it.
   * The modulo fails when `each_n_epochs` is 0.
   */
  function EpochDue(e: int, start: int, eachN: int): (r: Result<bool, PyError>)
    ensures r.Err? <==> e >= start && eachN == 0
    ensures r == Ok(true) <==> e >= start && eachN != 0 && (e - start) % eachN == 0
  {
    if e < start then Ok(false)
    else if eachN == 0 then Err(ZeroDivisionError)
    else Ok(PyMod(e - start, eachN) == 0)
  }

  /**
   * Whether the update callback evaluates: the cumulative update count is a
   * multiple of `each_n_updates` and the epoch has reached
   * `start_eval_on_epoch`. The modulo is computed first, so it fails for
   * `each_n_updates == 0` whatever the epoch.
   */
  function UpdateDue(cumUpdate: int, epoch: int, start: int, eachN: int): (r: Result<bool, PyError>)
    ensures r.Err? <==> eachN == 0
    ensures r == Ok(true) <==> eachN != 0 && cumUpdate % eachN == 0 && epoch >= start
  {
    if eachN == 0 then Err(ZeroDivisionError)
    else if PyMod(cumUpdate, eachN) != 0 then Ok(false)
    else Ok(epoch >= start)
  }

  /**
   * Whether the sampling callback prints: `n = n_update + 1 + reload_epoch`
   * has reached `start_sampling_on_epoch` and is a multiple of
   * `each_n_updates`.
   */
  function SampleDue(nUpdate: nat, reloadEpoch: nat, start: int, eachN: int): (r: Result<bool, PyError>)
    ensures var n := nUpdate + 1 + reloadEpoch;
      (r.Err? <==> n >= start && eachN == 0)
      && (r == Ok(true) <==> n >= start && eachN != 0 && n % eachN == 0)
  {
    var n := nUpdate + 1 + reloadEpoch;
    if n < start then Ok(false)
    else if eachN == 0 then Err(ZeroDivisionError)
    else Ok(PyMod(n, eachN) == 0)
  }

  /**
   * The epoch callback's evaluations are `each_n_epochs` apart: once it has
   * evaluated at `e`, it evaluates again `each_n_epochs` epochs later and
   * at none of the epochs in between.
   */
  lemma EpochDuePeriodic(e: int, start: int, eachN: int, d: int)
    requires eachN > 0 && EpochDue(e, start, eachN) == Ok(true)
    requires 0 < d <= eachN
    ensures EpochDue(e + d, start, eachN) == Ok(d == eachN)
  {
    var x := e - start;
    var q := x / eachN;
    assert x == q * eachN;
    if d < eachN {
      ModOfDecomposition(x + d, eachN, q, d);
    } else {
      assert x + d == (q + 1) * eachN;
      ModOfDecomposition(x + d, eachN, q + 1, 0);
    }
  }

  /** The remainder is fixed by any decomposition whose remainder is in range. */
  lemma ModOfDecomposition(x: int, n: int, q: int, r: int)
    requires n > 0 && 0 <= r < n && x == q * n + r
    ensures x % n == r
  {
    var q', r' := x / n, x % n;
    assert x == q' * n + r';
    assert (q - q') * n == r' - r;
    if q - q' >= 1 {
      MulAtLeast(q - q', n);
    } else if q' - q >= 1 {
      MulAtLeast(q' - q, n);
    }
  }

  lemma MulAtLeast(d: int, n: int)
    requires d >= 1 && n > 0
    ensures d * n >= n
  {
  }

  /**
   * With `start_eval_on_epoch` at 1 or later, the first epoch the callback
   * evaluates is that epoch itself, and the header is written there.
   */
  lemma EpochHeaderAtStart(start: int, eachN: int)
    requires eachN != 0
    ensures EpochDue(start, start, eachN) == Ok(true)
    ensures forall e :: e < start ==> EpochDue(e, start, eachN) == Ok(false)
  {
  }

  /**
   * With `start_eval_on_epoch == 0`, an evaluated epoch meets the header
   * condition `epoch == 1 or epoch == start_eval_on_epoch` exactly when it is
   * epoch 1 and `each_n_epochs` is 1 or -1: with any other period the metric
   * files never get their header line.
   */
  lemma EpochHeaderNeedsUnitPeriod(e: int, eachN: int)
    requires e >= 1
    ensures (EpochDue(e, 0, eachN) == Ok(true) && (e == 1 || e == 0)) <==> (e == 1 && (eachN == 1 || eachN == -1))
  {
  }

  // ---------------------------------------------------------------------
  // File names and rows
  // ---------------------------------------------------------------------

  /** `.np` for numpy predictions, `.pred` for every other write type. */
  function PredictionExtension(writeType: string): string {
    if writeType == "numpy" then ".np" else ".pred"
  }

  /** `save_path + '/' + s + '_update_' + str(counter) + extension`. */
  function PredictionPath(savePath: string, split: string, counter: nat, writeType: string): string {
    savePath + "/" + split + "_update_" + NatToString(counter) + PredictionExtension(writeType)
  }

  /** `save_path + '/' + s + '.' + metric`. */
  function MetricPath(savePath: string, split: string, metric: string): string {
    savePath + "/" + split + "." + metric
  }

  /** The write types the callbacks know; any other raises NotImplementedError. */
  function StoreFormatOf(writeType: string): (r: Result<StoreFormat, PyError>)
    ensures r.Ok? <==> writeType in ["list", "vqa", "listoflists", "numpy"]
    ensures r == Ok(NumpyFormat) <==> writeType == "numpy"
    ensures r == Ok(ListFormat) <==> writeType == "list"
  {
    if writeType == "list" then Ok(ListFormat)
    else if writeType == "vqa" then Ok(VqaFormat)
    else if writeType == "listoflists" then Ok(ListOfListsFormat)
    else if writeType == "numpy" then Ok(NumpyFormat)
    else Err(NotImplementedError("The store type \"" + writeType + "\" is not implemented."))
  }

  /**
   * Prediction files of one split never collide: two different counters
   * give two different paths.
   */
  lemma PredictionPathInjective(savePath: string, split: string, c1: nat, c2: nat, writeType: string)
    requires PredictionPath(savePath, split, c1, writeType) == PredictionPath(savePath, split, c2, writeType)
    ensures c1 == c2
  {
    var pre := savePath + "/" + split + "_update_";
    var ext := PredictionExtension(writeType);
    var n1, n2 := NatToString(c1), NatToString(c2);
    var p1, p2 := pre + n1 + ext, pre + n2 + ext;
    assert |n1| == |n2|;
    assert n1 == p1[|pre|..|pre| + |n1|];
    assert n2 == p2[|pre|..|pre| + |n2|];
    NatToStringInjective(c1, c2);
  }

  /** The `str()` of each named value, in the order of `names`. */
  function TextsOf(names: seq<string>, m: Metrics): (ts: seq<string>)
    requires forall k :: 0 <= k < |names| ==> names[k] in m
    ensures |ts| == |names|
    ensures forall k :: 0 <= k < |names| ==> ts[k] == m[names[k]].text
  {
    seq(|names|, k requires 0 <= k < |names| => m[names[k]].text)
  }

  /**
   * The header and the value line for one metric result: the leading
   * cells, then one cell per metric name in sorted order (header) and the
   * values in the same order (line), each cell followed by a comma.
   */
  ghost function Rows(headLead: seq<string>, lineLead: seq<string>, m: Metrics): (string, string) {
    var names := SortedListing(m.Keys);
    SortedListingSpec(m.Keys);
    (Cells(headLead + names), Cells(lineLead + TextsOf(names, m)))
  }

  /**
   * The loop that grows `header` and `line` with `+=` over `sorted(metrics)`,
   * starting from the leading cells.
   */
  method BuildRows(headLead: seq<string>, lineLead: seq<string>, m: Metrics) returns (header: string, line: string)
    ensures (header, line) == Rows(headLead, lineLead, m)
  {
    var names := SortKeys(m.Keys);
    ghost var texts := TextsOf(names, m);
    header := Cells(headLead);
    line := Cells(lineLead);
    var i := 0;
    CellsPrefix(headLead, names, 0);
    CellsPrefix(lineLead, texts, 0);
    while i < |names|
      invariant 0 <= i <= |names|
      invariant header == Cells(headLead + names[..i])
      invariant line == Cells(lineLead + texts[..i])
    {
      CellsStep(headLead, names, i);
      CellsStep(lineLead, texts, i);
      header := header + names[i] + ",";
      line := line + m[names[i]].text + ",";
      i := i + 1;
    }
    CellsPrefix(headLead, names, |names|);
    CellsPrefix(lineLead, texts, |texts|);
  }

  /** The row of the leading cells and the first `i` fields, at both ends of the loop. */
  lemma CellsPrefix(lead: seq<string>, xs: seq<string>, i: nat)
    requires i == 0 || i == |xs|
    ensures Cells(lead + xs[..i]) == if i == 0 then Cells(lead) else Cells(lead + xs)
  {
    if i == 0 {
      assert lead + xs[..0] == lead;
    } else {
      assert xs[..i] == xs;
    }
  }

  /** One more field extends the row by that field and its comma. */
  lemma CellsStep(lead: seq<string>, xs: seq<string>, i: nat)
    requires i < |xs|
    ensures Cells(lead + xs[..i + 1]) == Cells(lead + xs[..i]) + xs[i] + ","
  {
    assert lead + xs[..i + 1] == (lead + xs[..i]) + [xs[i]];
    CellsSnoc(lead + xs[..i], xs[i]);
  }

  /**
   * Reading the rows back: the header splits into the leading cells and
   * the metric names in sorted order, and the line has as many cells as the
   * header, when no name, value or leading cell holds a comma.
   */
  lemma RowsReadBack(headLead: seq<string>, lineLead: seq<string>, m: Metrics)
    requires |headLead| == |lineLead|
    requires forall k :: 0 <= k < |headLead| ==> ',' !in headLead[k] && ',' !in lineLead[k]
    requires forall k :: k in m ==> ',' !in k && ',' !in m[k].text
    ensures Split(Rows(headLead, lineLead, m).0, ',') == headLead + SortedListing(m.Keys) + [""]
    ensures |Split(Rows(headLead, lineLead, m).0, ',')| == |Split(Rows(headLead, lineLead, m).1, ',')|
  {
    var names := SortedListing(m.Keys);
    SortedListingSpec(m.Keys);
    var texts := TextsOf(names, m);
    var hs, ls := headLead + names, lineLead + texts;
    forall k | 0 <= k < |hs| ensures ',' !in hs[k] {
      if k >= |headLead| {
        assert hs[k] == names[k - |headLead|] && names[k - |headLead|] in m;
      }
    }
    forall k | 0 <= k < |ls| ensures ',' !in ls[k] {
      if k >= |lineLead| {
        assert ls[k] == m[names[k - |lineLead|]].text;
      }
    }
    RowRoundTrip(hs);
    RowRoundTrip(ls);
  }

  // ---------------------------------------------------------------------
  // Evaluating one split, and all of them
  // ---------------------------------------------------------------------

  /** The configuration shared by both metric callbacks. */
  datatype EvalConfig = EvalConfig(
    setNames: seq<string>,
    metricNames: seq<string>,
    savePath: string,
    writeSamples: bool,
    writeType: string,
    hasParallelLoaders: bool,       // extra_vars holds 'n_parallel_loaders'
    questionIdSplits: set<string>,  // splits s with extra_vars[s]['question_ids']
    badQuestionIdSplits: set<string>, // splits whose paired question ids include one int() rejects
    earlyStop: bool,
    patience: int,
    stopMetric: string,
    verbose: int)

  /** The split names on which the early-stop check runs. */
  predicate IsValidationSplit(s: string) {
    s in ["val", "validation", "dev", "development"]
  }

  /** What an evaluation did: the new early-stop state, the files written, and the exception if one stopped it. */
  datatype Pass = Pass(state: StopState, writes: seq<FileWrite>, error: Option<PyError>)

  /** Storing the predictions of split `s`, when `write_samples` is on. */
  function StoreWrites(cfg: EvalConfig, s: string, counter: nat): (r: Result<seq<FileWrite>, PyError>)
    ensures r.Ok? && cfg.writeSamples ==> (|r.value| == 1
      && r.value[0].path == PredictionPath(cfg.savePath, s, counter, cfg.writeType))
    ensures r.Ok? ==> forall k :: 0 <= k < |r.value| ==>
      r.value[k].mode == Overwrite && r.value[k].payload.Predictions? && r.value[k].payload.split == s
    ensures !cfg.writeSamples ==> r == Ok([])
    ensures cfg.writeSamples && !(cfg.writeType in ["list", "vqa", "listoflists", "numpy"]) ==> r.Err?
    ensures cfg.writeSamples ==>
      (r.Ok? <==> cfg.writeType in ["list", "listoflists", "numpy"]
                  || (cfg.writeType == "vqa" && s in cfg.questionIdSplits && s !in cfg.badQuestionIdSplits))
    ensures cfg.writeSamples && cfg.writeType == "vqa" && s !in cfg.questionIdSplits ==> r == Err(KeyError("question_ids"))
    ensures cfg.writeSamples && cfg.writeType == "vqa" && s in cfg.questionIdSplits && s in cfg.badQuestionIdSplits ==>
      r.Err? && r.error.ValueError?
  {
    if !cfg.writeSamples then Ok([])
    else
      match StoreFormatOf(cfg.writeType)
      case Err(e) => Err(e)
      case Ok(f) =>
        if f == VqaFormat && s !in cfg.questionIdSplits then Err(KeyError("question_ids"))
        else if f == VqaFormat && s in cfg.badQuestionIdSplits then Err(ValueError("invalid literal for int()"))
        else Ok([FileWrite(PredictionPath(cfg.savePath, s, counter, cfg.writeType), Overwrite, Predictions(s, f))])
  }

  /** The append to `<save_path>/<s>.<metric>` for one metric result. */
  ghost function MetricWrite(cfg: EvalConfig, s: string, lead: string, counter: nat, header: bool,
                             m: Metrics, metric: string): FileWrite
  {
    var rows := Rows([lead], [NatToString(counter)], m);
    FileWrite(MetricPath(cfg.savePath, s, metric), Append,
              Text((if header then rows.0 + "\n" else "") + rows.1 + "\n"))
  }

  ghost function MetricWrites(cfg: EvalConfig, s: string, lead: string, counter: nat, header: bool,
                              evaluate: (string, string) -> Metrics, n: nat): seq<FileWrite>
    requires n <= |cfg.metricNames|
  {
    seq(n, i requires 0 <= i < n =>
      MetricWrite(cfg, s, lead, counter, header, evaluate(s, cfg.metricNames[i]), cfg.metricNames[i]))
  }

  /**
   * One iteration of the loop over `set_name`: store the predictions, append
   * one row per metric, then run the early-stop check on a validation split,
   * with the score read from the dictionary of the LAST metric evaluated.
   * `lead` is the first header cell ('epoch' or 'Update') and `attr` the
   * best-counter attribute the stop message reads.
   */
  ghost function SplitPass(cfg: EvalConfig, lead: string, attr: string, counter: nat, header: bool,
                           st: StopState, s: string, evaluate: (string, string) -> Metrics): Pass
  {
    if !cfg.hasParallelLoaders then Pass(st, [], Some(KeyError("n_parallel_loaders")))
    else
      match StoreWrites(cfg, s, counter)
      case Err(e) => Pass(st, [], Some(e))
      case Ok(stored) =>
        var ws := stored + MetricWrites(cfg, s, lead, counter, header, evaluate, |cfg.metricNames|);
        if !(cfg.earlyStop && IsValidationSplit(s)) then Pass(st, ws, None)
        else if cfg.metricNames == [] then Pass(st, ws, Some(UnboundLocalError("metrics")))
        else
          var last := evaluate(s, cfg.metricNames[|cfg.metricNames| - 1]);
          if cfg.stopMetric !in last then Pass(st, ws, Some(KeyError(cfg.stopMetric)))
          else
            match Observe(st, last[cfg.stopMetric].score, counter, cfg.patience, cfg.verbose, attr)
            case Err(e) => Pass(st, ws, Some(e))
            case Ok(next) => Pass(next, ws, None)
  }

  /** The loop over the splits, in order, stopping at the first exception. */
  ghost function SetsPass(cfg: EvalConfig, lead: string, attr: string, counter: nat, header: bool,
                          st: StopState, sets: seq<string>, evaluate: (string, string) -> Metrics): Pass
    decreases |sets|
  {
    if sets == [] then Pass(st, [], None)
    else
      var q := SplitPass(cfg, lead, attr, counter, header, st, sets[0], evaluate);
      if q.error.Some? then q
      else
        var r := SetsPass(cfg, lead, attr, counter, header, q.state, sets[1..], evaluate);
        Pass(r.state, q.writes + r.writes, r.error)
  }

  /**
   * One split, as the callbacks' loop body computes it: the metric loop
   * builds each row with `BuildRows` and remembers the last result.
   */
  method EvaluateSplit(cfg: EvalConfig, lead: string, attr: string, counter: nat, header: bool,
                       st: StopState, s: string, evaluate: (string, string) -> Metrics)
    returns (p: Pass)
    ensures p == SplitPass(cfg, lead, attr, counter, header, st, s, evaluate)
  {
    if !cfg.hasParallelLoaders {
      return Pass(st, [], Some(KeyError("n_parallel_loaders")));
    }
    var stored := StoreWrites(cfg, s, counter);
    if stored.Err? {
      return Pass(st, [], Some(stored.error));
    }
    var writes := stored.value;
    var last: Option<Metrics> := None;
    var j := 0;
    while j < |cfg.metricNames|
      invariant 0 <= j <= |cfg.metricNames|
      invariant writes == stored.value + MetricWrites(cfg, s, lead, counter, header, evaluate, j)
      invariant last == if j == 0 then None else Some(evaluate(s, cfg.metricNames[j - 1]))
    {
      var metric := cfg.metricNames[j];
      var metrics := evaluate(s, metric);
      var headerRow, line := BuildRows([lead], [NatToString(counter)], metrics);
      var text := (if header then headerRow + "\n" else "") + line + "\n";
      assert MetricWrites(cfg, s, lead, counter, header, evaluate, j + 1)
          == MetricWrites(cfg, s, lead, counter, header, evaluate, j) + [FileWrite(MetricPath(cfg.savePath, s, metric), Append, Text(text))];
      writes := writes + [FileWrite(MetricPath(cfg.savePath, s, metric), Append, Text(text))];
      last := Some(metrics);
      j := j + 1;
    }
    if !(cfg.earlyStop && IsValidationSplit(s)) {
      return Pass(st, writes, None);
    }
    if last.None? {
      return Pass(st, writes, Some(UnboundLocalError("metrics")));
    }
    var metrics := last.value;
    if cfg.stopMetric !in metrics {
      return Pass(st, writes, Some(KeyError(cfg.stopMetric)));
    }
    var observed := Observe(st, metrics[cfg.stopMetric].score, counter, cfg.patience, cfg.verbose, attr);
    if observed.Err? {
      return Pass(st, writes, Some(observed.error));
    }
    p := Pass(observed.value, writes, None);
  }

  /**
   * The loop over `set_name`: each split is evaluated with the state the
   * previous one left, and the first exception ends the loop.
   */
  method RunSets(cfg: EvalConfig, lead: string, attr: string, counter: nat, header: bool,
                 st: StopState, sets: seq<string>, evaluate: (string, string) -> Metrics)
    returns (p: Pass)
    ensures p == SetsPass(cfg, lead, attr, counter, header, st, sets, evaluate)
  {
    ghost var whole := SetsPass(cfg, lead, attr, counter, header, st, sets, evaluate);
    var current := st;
    var written: seq<FileWrite> := [];
    var i := 0;
    while i < |sets|
      invariant 0 <= i <= |sets|
      invariant var rest := SetsPass(cfg, lead, attr, counter, header, current, sets[i..], evaluate);
        whole == Pass(rest.state, written + rest.writes, rest.error)
    {
      assert sets[i..][1..] == sets[i + 1..];
      var q := EvaluateSplit(cfg, lead, attr, counter, header, current, sets[i], evaluate);
      if q.error.Some? {
        return Pass(q.state, written + q.writes, q.error);
      }
      ghost var rest := SetsPass(cfg, lead, attr, counter, header, q.state, sets[i + 1..], evaluate);
      assert written + q.writes + rest.writes == written + (q.writes + rest.writes);
      current := q.state;
      written := written + q.writes;
      i := i + 1;
    }
    p := Pass(current, written, None);
  }

  /**
   * Only a validation split can change the early-stop state: over splits
   * none of which is one (or with early stopping off), the state is kept.
   */
  lemma {:induction false} StateKeptOffValidation(cfg: EvalConfig, lead: string, attr: string, counter: nat, header: bool,
                                                 st: StopState, sets: seq<string>, evaluate: (string, string) -> Metrics)
    requires !cfg.earlyStop || forall k :: 0 <= k < |sets| ==> !IsValidationSplit(sets[k])
    ensures SetsPass(cfg, lead, attr, counter, header, st, sets, evaluate).state == st
    ensures SetsPass(cfg, lead, attr, counter, header, st, sets, evaluate).error.None?
      <==> (sets == [] || cfg.hasParallelLoaders) && forall k :: 0 <= k < |sets| ==> StoreWrites(cfg, sets[k], counter).Ok?
    decreases |sets|
  {
    if sets != [] {
      StateKeptOffValidation(cfg, lead, attr, counter, header, st, sets[1..], evaluate);
      forall k | 1 <= k < |sets| ensures sets[k] == sets[1..][k - 1] { }
    }
  }

  /**
   * The early-stop checks a pass makes, in order: one per validation split
   * (when early stopping is on), with the stop metric's score from the last
   * metric evaluated on that split and the pass's counter.
   */
  ghost function StopObservations(cfg: EvalConfig, counter: nat, sets: seq<string>,
                                  evaluate: (string, string) -> Metrics): seq<(real, nat)>
    decreases |sets|
  {
    if sets == [] then []
    else
      var rest := StopObservations(cfg, counter, sets[1..], evaluate);
      if cfg.earlyStop && IsValidationSplit(sets[0]) && cfg.metricNames != [] then
        var last := evaluate(sets[0], cfg.metricNames[|cfg.metricNames| - 1]);
        if cfg.stopMetric in last then [(last[cfg.stopMetric].score, counter)] + rest else rest
      else rest
  }

  /**
   * A pass that raises nothing leaves the early-stop state that the checks
   * `Run` describes would: exactly one `Observe` per validation split, in
   * the order of the splits, and no other change.
   */
  lemma {:induction false} SetsPassRunsObservations(cfg: EvalConfig, lead: string, attr: string, counter: nat,
                                                   header: bool, st: StopState, sets: seq<string>,
                                                   evaluate: (string, string) -> Metrics)
    requires SetsPass(cfg, lead, attr, counter, header, st, sets, evaluate).error.None?
    ensures Run(st, StopObservations(cfg, counter, sets, evaluate), cfg.patience, cfg.verbose, attr)
         == Ok(SetsPass(cfg, lead, attr, counter, header, st, sets, evaluate).state)
    decreases |sets|
  {
    if sets != [] {
      var q := SplitPass(cfg, lead, attr, counter, header, st, sets[0], evaluate);
      var rest := StopObservations(cfg, counter, sets[1..], evaluate);
      SetsPassRunsObservations(cfg, lead, attr, counter, header, q.state, sets[1..], evaluate);
      if cfg.earlyStop && IsValidationSplit(sets[0]) {
        var last := evaluate(sets[0], cfg.metricNames[|cfg.metricNames| - 1]);
        var obs := [(last[cfg.stopMetric].score, counter)] + rest;
        assert obs[0] == (last[cfg.stopMetric].score, counter) && obs[1..] == rest;
      }
    }
  }

  /** So a pass over one validation split makes exactly one check, with that split's score. */
  lemma OneValidationSplitObservesOnce(cfg: EvalConfig, lead: string, attr: string, counter: nat, header: bool,
                                       st: StopState, v: string, evaluate: (string, string) -> Metrics)
    requires cfg.earlyStop && IsValidationSplit(v)
    requires SetsPass(cfg, lead, attr, counter, header, st, [v], evaluate).error.None?
    ensures cfg.metricNames != []
    ensures var last := evaluate(v, cfg.metricNames[|cfg.metricNames| - 1]);
      cfg.stopMetric in last
      && Observe(st, last[cfg.stopMetric].score, counter, cfg.patience, cfg.verbose, attr)
         == Ok(SetsPass(cfg, lead, attr, counter, header, st, [v], evaluate).state)
  {
  }

  /**
   * The early-stop state of a pass depends on the metric results only
   * through the result of the last metric: the stop score is looked up in
   * that dictionary, whichever metric `stop_metric` names.
   */
  lemma StopScoreFromLastMetric(cfg: EvalConfig, lead: string, attr: string, counter: nat, header: bool,
                                st: StopState, s: string, ev1: (string, string) -> Metrics, ev2: (string, string) -> Metrics)
    requires cfg.metricNames != []
    requires ev1(s, cfg.metricNames[|cfg.metricNames| - 1]) == ev2(s, cfg.metricNames[|cfg.metricNames| - 1])
    ensures SplitPass(cfg, lead, attr, counter, header, st, s, ev1).state
         == SplitPass(cfg, lead, attr, counter, header, st, s, ev2).state
    ensures SplitPass(cfg, lead, attr, counter, header, st, s, ev1).error
         == SplitPass(cfg, lead, attr, counter, header, st, s, ev2).error
  {
  }

  /**
   * A write as the metric callbacks issue it: text is appended to the
   * metric file `<save_path>/<s>.<metric>` of one of the splits and metrics,
   * and predictions overwrite their file.
   */
  predicate WellModed(w: FileWrite, savePath: string, sets: seq<string>, metrics: seq<string>) {
    (w.payload.Text? ==>
       w.mode == Append && exists s, m :: s in sets && m in metrics && w.path == MetricPath(savePath, s, m))
    && (w.payload.Predictions? ==> w.mode == Overwrite)
  }

  predicate AllWellModed(ws: seq<FileWrite>, savePath: string, sets: seq<string>, metrics: seq<string>) {
    forall k :: 0 <= k < |ws| ==> WellModed(ws[k], savePath, sets, metrics)
  }

  lemma WellModedWiden(w: FileWrite, savePath: string, small: seq<string>, big: seq<string>, metrics: seq<string>)
    requires WellModed(w, savePath, small, metrics)
    requires forall x :: x in small ==> x in big
    ensures WellModed(w, savePath, big, metrics)
  {
    if w.payload.Text? {
      var s, m :| s in small && m in metrics && w.path == MetricPath(savePath, s, m);
      assert s in big;
    }
  }

  /** A metric row is appended to the metric file of its split and metric. */
  lemma MetricWriteModed(cfg: EvalConfig, s: string, lead: string, counter: nat, header: bool, m: Metrics, metric: string)
    ensures var w := MetricWrite(cfg, s, lead, counter, header, m, metric);
      w.payload.Text? && w.mode == Append && w.path == MetricPath(cfg.savePath, s, metric)
  {
  }

  /** Stored predictions are well moded. */
  lemma StoreWritesModed(cfg: EvalConfig, s: string, counter: nat)
    requires StoreWrites(cfg, s, counter).Ok?
    ensures AllWellModed(StoreWrites(cfg, s, counter).value, cfg.savePath, [s], cfg.metricNames)
  {
  }

  /** The metric rows of a split are well moded. */
  lemma MetricWritesModed(cfg: EvalConfig, s: string, lead: string, counter: nat, header: bool,
                          evaluate: (string, string) -> Metrics)
    ensures AllWellModed(MetricWrites(cfg, s, lead, counter, header, evaluate, |cfg.metricNames|),
                         cfg.savePath, [s], cfg.metricNames)
  {
    var ms := MetricWrites(cfg, s, lead, counter, header, evaluate, |cfg.metricNames|);
    forall i | 0 <= i < |ms| ensures WellModed(ms[i], cfg.savePath, [s], cfg.metricNames) {
      var metric := cfg.metricNames[i];
      assert ms[i] == MetricWrite(cfg, s, lead, counter, header, evaluate(s, metric), metric);
      MetricWriteModed(cfg, s, lead, counter, header, evaluate(s, metric), metric);
      assert s in [s] && metric in cfg.metricNames;
    }
  }

  /** Well-moded writes stay so when concatenated. */
  lemma AllWellModedConcat(a: seq<FileWrite>, b: seq<FileWrite>, savePath: string, sets: seq<string>, metrics: seq<string>)
    requires AllWellModed(a, savePath, sets, metrics) && AllWellModed(b, savePath, sets, metrics)
    ensures AllWellModed(a + b, savePath, sets, metrics)
  {
    forall k | 0 <= k < |a + b| ensures WellModed((a + b)[k], savePath, sets, metrics) {
      if k < |a| {
        assert (a + b)[k] == a[k];
      } else {
        assert (a + b)[k] == b[k - |a|];
      }
    }
  }

  /** The writes of one split are well moded. */
  lemma SplitWritesModed(cfg: EvalConfig, lead: string, attr: string, counter: nat, header: bool,
                         st: StopState, s: string, evaluate: (string, string) -> Metrics)
    ensures AllWellModed(SplitPass(cfg, lead, attr, counter, header, st, s, evaluate).writes, cfg.savePath, [s], cfg.metricNames)
  {
    SplitPassWrites(cfg, lead, attr, counter, header, st, s, evaluate);
    var stored := StoreWrites(cfg, s, counter);
    if cfg.hasParallelLoaders && stored.Ok? {
      StoreWritesModed(cfg, s, counter);
      MetricWritesModed(cfg, s, lead, counter, header, evaluate);
      AllWellModedConcat(stored.value, MetricWrites(cfg, s, lead, counter, header, evaluate, |cfg.metricNames|),
                         cfg.savePath, [s], cfg.metricNames);
    }
  }

  /**
   * What a split writes does not depend on the early-stop state: its
   * predictions (when stored) and one append per metric, unless an
   * exception came first.
   */
  lemma SplitPassWrites(cfg: EvalConfig, lead: string, attr: string, counter: nat, header: bool,
                        st: StopState, s: string, evaluate: (string, string) -> Metrics)
    ensures SplitPass(cfg, lead, attr, counter, header, st, s, evaluate).writes
      == if !cfg.hasParallelLoaders || StoreWrites(cfg, s, counter).Err? then []
         else StoreWrites(cfg, s, counter).value + MetricWrites(cfg, s, lead, counter, header, evaluate, |cfg.metricNames|)
  {
  }

  /**
   * Every metric file is appended to and every prediction file overwritten;
   * a metric append goes to the file of a split of the pass and a metric.
   */
  lemma {:induction false} WriteModes(cfg: EvalConfig, lead: string, attr: string, counter: nat, header: bool,
                                      st: StopState, sets: seq<string>, evaluate: (string, string) -> Metrics)
    ensures AllWellModed(SetsPass(cfg, lead, attr, counter, header, st, sets, evaluate).writes, cfg.savePath, sets, cfg.metricNames)
    decreases |sets|
  {
    if sets != [] {
      var q := SplitPass(cfg, lead, attr, counter, header, st, sets[0], evaluate);
      SplitWritesModed(cfg, lead, attr, counter, header, st, sets[0], evaluate);
      assert forall x :: x in [sets[0]] ==> x in sets;
      forall k | 0 <= k < |q.writes| ensures WellModed(q.writes[k], cfg.savePath, sets, cfg.metricNames) {
        assert WellModed(q.writes[k], cfg.savePath, [sets[0]], cfg.metricNames);
        WellModedWiden(q.writes[k], cfg.savePath, [sets[0]], sets, cfg.metricNames);
      }
      if q.error.None? {
        var r := SetsPass(cfg, lead, attr, counter, header, q.state, sets[1..], evaluate);
        WriteModes(cfg, lead, attr, counter, header, q.state, sets[1..], evaluate);
        var ws := SetsPass(cfg, lead, attr, counter, header, st, sets, evaluate).writes;
        assert ws == q.writes + r.writes;
        assert forall x :: x in sets[1..] ==> x in sets;
        forall k | 0 <= k < |ws| ensures WellModed(ws[k], cfg.savePath, sets, cfg.metricNames) {
          if k >= |q.writes| {
            assert ws[k] == r.writes[k - |q.writes|];
            assert WellModed(r.writes[k - |q.writes|], cfg.savePath, sets[1..], cfg.metricNames);
            WellModedWiden(ws[k], cfg.savePath, sets[1..], sets, cfg.metricNames);
          }
        }
      }
    }
  }

  // ---------------------------------------------------------------------
  // The callback objects
  // ---------------------------------------------------------------------

  /** The model under training, as far as the callbacks touch it. */
  class Trainer {
    var stopTraining: bool

    constructor ()
      ensures !stopTraining
    {
      stopTraining := false;
    }
  }

  /** What one `on_epoch_end` of the epoch callback does. */
  ghost function EpochEnd(cfg: EvalConfig, eachNEpochs: int, reloadEpoch: nat, startEvalOnEpoch: int,
                          st: StopState, epoch: nat, evaluate: (string, string) -> Metrics): Pass
  {
    var e := EpochCounter(epoch, reloadEpoch);
    match EpochDue(e, startEvalOnEpoch, eachNEpochs)
    case Err(x) => Pass(st, [], Some(x))
    case Ok(due) =>
      if !due then Pass(st, [], None)
      else SetsPass(cfg, "epoch", "best_epoch", e, e == 1 || e == startEvalOnEpoch, st, cfg.setNames, evaluate)
  }

  /** `PrintPerformanceMetricOnEpochEnd`. */
  class EpochEvaluator {
    const cfg: EvalConfig
    const eachNEpochs: int
    const reloadEpoch: nat
    const startEvalOnEpoch: int
    const model: Trainer
    var bestScore: real
    var bestEpoch: Option<nat>
    var wait: int

    /** The early-stop state, with the trainer's flag. */
    function State(): StopState
      reads this, model
    {
      StopState(bestScore, bestEpoch, wait, model.stopTraining)
    }

    constructor (cfg: EvalConfig, eachNEpochs: int, reloadEpoch: nat, startEvalOnEpoch: int, model: Trainer)
      ensures this.cfg == cfg && this.eachNEpochs == eachNEpochs && this.reloadEpoch == reloadEpoch
      ensures this.startEvalOnEpoch == startEvalOnEpoch && this.model == model
      ensures State() == Fresh(model.stopTraining)
    {
      this.cfg := cfg;
      this.eachNEpochs := eachNEpochs;
      this.reloadEpoch := reloadEpoch;
      this.startEvalOnEpoch := startEvalOnEpoch;
      this.model := model;
      bestScore := -1.0;
      bestEpoch := None;
      wait := 0;
    }

    /**
     * `on_epoch_end(epoch)`: returns the files written and the exception
     * that ended it, if any; the early-stop state is updated in place.
     */
    method OnEpochEnd(epoch: nat, evaluate: (string, string) -> Metrics)
      returns (written: seq<FileWrite>, error: Option<PyError>)
      modifies this, model
      ensures var p := EpochEnd(cfg, eachNEpochs, reloadEpoch, startEvalOnEpoch, old(State()), epoch, evaluate);
        State() == p.state && written == p.writes && error == p.error
    {
      var e := EpochCounter(epoch, reloadEpoch);
      var due := EpochDue(e, startEvalOnEpoch, eachNEpochs);
      if due.Err? {
        return [], Some(due.error);
      }
      if !due.value {
        return [], None;
      }
      var p := RunSets(cfg, "epoch", "best_epoch", e, e == 1 || e == startEvalOnEpoch, State(), cfg.setNames, evaluate);
      bestScore, bestEpoch, wait := p.state.bestScore, p.state.bestAt, p.state.wait;
      model.stopTraining := p.state.stop;
      written, error := p.writes, p.error;
    }
  }

  /** What one `on_batch_end` of the update callback does, after counting the batch. */
  ghost function BatchEnd(cfg: EvalConfig, eachNUpdates: int, startEvalOnEpoch: int,
                          st: StopState, cumUpdate: nat, epoch: int, evaluate: (string, string) -> Metrics): Pass
  {
    match UpdateDue(cumUpdate, epoch, startEvalOnEpoch, eachNUpdates)
    case Err(x) => Pass(st, [], Some(x))
    case Ok(due) =>
      if !due then Pass(st, [], None)
      else SetsPass(cfg, "Update", "best_update", cumUpdate, cumUpdate == 0 || cumUpdate == eachNUpdates,
                    st, cfg.setNames, evaluate)
  }

  /**
   * The update callback writes a header exactly at the evaluation where the
   * counter equals `each_n_updates`: the test against 0 can never hold,
   * because the counter is incremented before it is read. That counter is
   * the first multiple, evaluated when the epoch has reached the start; when
   * it has not, the header is never written.
   */
  lemma UpdateHeaderOnlyAtFirstMultiple(cumUpdate: nat, epoch: int, start: int, eachNUpdates: int)
    requires cumUpdate >= 1
    ensures (cumUpdate == 0 || cumUpdate == eachNUpdates) <==> cumUpdate == eachNUpdates
    ensures eachNUpdates > 0 && cumUpdate == eachNUpdates && epoch >= start ==>
      UpdateDue(cumUpdate, epoch, start, eachNUpdates) == Ok(true)
      && forall c :: 1 <= c < cumUpdate ==> UpdateDue(c, epoch, start, eachNUpdates) == Ok(false)
    ensures eachNUpdates > 0 && cumUpdate == eachNUpdates && epoch < start ==>
      UpdateDue(cumUpdate, epoch, start, eachNUpdates) == Ok(false)
  {
  }

  /** `PrintPerformanceMetricEachNUpdates`. */
  class UpdateEvaluator {
    const cfg: EvalConfig
    const eachNUpdates: int
    const reloadEpoch: nat
    const startEvalOnEpoch: int
    const model: Trainer
    var bestScore: real
    var bestUpdate: Option<nat>
    var wait: int
    var cumUpdate: nat
    var epoch: int

    function State(): StopState
      reads this, model
    {
      StopState(bestScore, bestUpdate, wait, model.stopTraining)
    }

    constructor (cfg: EvalConfig, eachNUpdates: int, reloadEpoch: nat, startEvalOnEpoch: int, model: Trainer)
      ensures this.cfg == cfg && this.eachNUpdates == eachNUpdates && this.reloadEpoch == reloadEpoch
      ensures this.startEvalOnEpoch == startEvalOnEpoch && this.model == model
      ensures State() == Fresh(model.stopTraining)
      ensures cumUpdate == 0 && epoch == reloadEpoch + 1
    {
      this.cfg := cfg;
      this.eachNUpdates := eachNUpdates;
      this.reloadEpoch := reloadEpoch;
      this.startEvalOnEpoch := startEvalOnEpoch;
      this.model := model;
      bestScore := -1.0;
      bestUpdate := None;
      wait := 0;
      cumUpdate := 0;
      epoch := reloadEpoch + 1;
    }

    /** `on_epoch_end`: one more epoch; nothing else changes. */
    method OnEpochEnd()
      modifies this
      ensures epoch == old(epoch) + 1
      ensures cumUpdate == old(cumUpdate) && bestScore == old(bestScore)
      ensures bestUpdate == old(bestUpdate) && wait == old(wait)
    {
      epoch := epoch + 1;
    }

    /** `on_batch_end`: count the batch, then evaluate when due. */
    method OnBatchEnd(evaluate: (string, string) -> Metrics)
      returns (written: seq<FileWrite>, error: Option<PyError>)
      modifies this, model
      ensures cumUpdate == old(cumUpdate) + 1 && epoch == old(epoch)
      ensures var p := BatchEnd(cfg, eachNUpdates, startEvalOnEpoch, old(State()), cumUpdate, epoch, evaluate);
        State() == p.state && written == p.writes && error == p.error
    {
      cumUpdate := cumUpdate + 1;
      var due := UpdateDue(cumUpdate, epoch, startEvalOnEpoch, eachNUpdates);
      if due.Err? {
        return [], Some(due.error);
      }
      if !due.value {
        return [], None;
      }
      var p := RunSets(cfg, "Update", "best_update", cumUpdate, cumUpdate == 0 || cumUpdate == eachNUpdates,
                       State(), cfg.setNames, evaluate);
      bestScore, bestUpdate, wait := p.state.bestScore, p.state.bestAt, p.state.wait;
      model.stopTraining := p.state.stop;
      written, error := p.writes, p.error;
    }
  }

  /** The two lines printed for the `i`-th sample. */
  function HypothesisLine(i: nat, sample: string): string {
    "Hypothesis (" + NatToString(i) + "): " + sample
  }

  function ReferenceLine(i: nat, truth: string): string {
    "Reference  (" + NatToString(i) + "): " + truth
  }

  /** The lines of the first `n` pairs. */
  function PairsUpTo(predictions: seq<string>, truths: seq<string>, n: nat): (lines: seq<string>)
    requires n <= |predictions| && n <= |truths|
    ensures |lines| == 2 * n
  {
    if n == 0 then []
    else PairsUpTo(predictions, truths, n - 1)
         + [HypothesisLine(n - 1, predictions[n - 1]), ReferenceLine(n - 1, truths[n - 1])]
  }

  /** The lines printed for one split: two per pair, as far as the shorter list goes. */
  function PairLines(predictions: seq<string>, truths: seq<string>): (lines: seq<string>)
    ensures |lines| == 2 * Min(|predictions|, |truths|)
  {
    PairsUpTo(predictions, truths, Min(|predictions|, |truths|))
  }

  /** Pair `i` holds lines `2i` (the hypothesis) and `2i + 1` (the reference). */
  lemma {:induction false} PairsUpToAt(predictions: seq<string>, truths: seq<string>, n: nat, i: nat)
    requires n <= |predictions| && n <= |truths| && i < n
    ensures PairsUpTo(predictions, truths, n)[2 * i] == HypothesisLine(i, predictions[i])
    ensures PairsUpTo(predictions, truths, n)[2 * i + 1] == ReferenceLine(i, truths[i])
  {
    if i < n - 1 {
      PairsUpToAt(predictions, truths, n - 1, i);
    }
  }

  /**
   * The loop over `enumerate(zip(predictions, truths))`: two lines per
   * pair, as many pairs as the shorter list has entries.
   */
  method SampleLines(predictions: seq<string>, truths: seq<string>) returns (lines: seq<string>)
    ensures |lines| == 2 * Min(|predictions|, |truths|)
    ensures forall i :: 0 <= i < Min(|predictions|, |truths|) ==>
      lines[2 * i] == HypothesisLine(i, predictions[i]) && lines[2 * i + 1] == ReferenceLine(i, truths[i])
    ensures lines == PairLines(predictions, truths)
  {
    lines := [];
    var n := Min(|predictions|, |truths|);
    var i := 0;
    while i < n
      invariant 0 <= i <= n && lines == PairsUpTo(predictions, truths, i)
    {
      lines := lines + [HypothesisLine(i, predictions[i]), ReferenceLine(i, truths[i])];
      i := i + 1;
    }
    forall k | 0 <= k < n
      ensures lines[2 * k] == HypothesisLine(k, predictions[k]) && lines[2 * k + 1] == ReferenceLine(k, truths[k])
    {
      PairsUpToAt(predictions, truths, n, k);
    }
  }

  /**
   * `SampleEachNUpdates`: its fields never change, so its one operation
   * only computes what it prints.
   */
  class Sampler {
    const setNames: seq<string>
    const eachNUpdates: int
    const reloadEpoch: nat
    const startSamplingOnEpoch: int
    const hasParallelLoaders: bool

    constructor (setNames: seq<string>, eachNUpdates: int, reloadEpoch: nat, startSamplingOnEpoch: int,
                 hasParallelLoaders: bool)
      ensures this.setNames == setNames && this.eachNUpdates == eachNUpdates
      ensures this.reloadEpoch == reloadEpoch && this.startSamplingOnEpoch == startSamplingOnEpoch
      ensures this.hasParallelLoaders == hasParallelLoaders
    {
      this.setNames := setNames;
      this.eachNUpdates := eachNUpdates;
      this.reloadEpoch := reloadEpoch;
      this.startSamplingOnEpoch := startSamplingOnEpoch;
      this.hasParallelLoaders := hasParallelLoaders;
    }

    /**
     * `on_batch_end(n_update)`: when sampling is due, for each split the
     * lines for its (decoded) predictions and references, split after split;
     * `samples(s)` stands for the framework's prediction and decoding.
     */
    method OnBatchEnd(nUpdate: nat, samples: string -> (seq<string>, seq<string>))
      returns (printed: Result<seq<string>, PyError>)
      ensures match SampleDue(nUpdate, reloadEpoch, startSamplingOnEpoch, eachNUpdates)
        case Err(e) => printed == Err(e)
        case Ok(due) =>
          if !due then printed == Ok([])
          else if setNames != [] && !hasParallelLoaders then printed == Err(KeyError("n_parallel_loaders"))
          else printed == Ok(AllSampleLines(setNames, samples))
    {
      var due := SampleDue(nUpdate, reloadEpoch, startSamplingOnEpoch, eachNUpdates);
      if due.Err? {
        return Err(due.error);
      }
      if !due.value {
        return Ok([]);
      }
      if |setNames| > 0 && !hasParallelLoaders {
        return Err(KeyError("n_parallel_loaders"));
      }
      var out: seq<string> := [];
      var i := 0;
      while i < |setNames|
        invariant 0 <= i <= |setNames|
        invariant out == AllSampleLines(setNames[..i], samples)
      {
        var (predictions, truths) := samples(setNames[i]);
        var lines := SampleLines(predictions, truths);
        assert setNames[..i + 1][..i] == setNames[..i];
        out := out + lines;
        i := i + 1;
      }
      assert setNames[..i] == setNames;
      printed := Ok(out);
    }
  }

  /** The printed lines of the splits, in order. */
  function AllSampleLines(sets: seq<string>, samples: string -> (seq<string>, seq<string>)): seq<string>
    decreases |sets|
  {
    if sets == [] then []
    else
      var last := samples(sets[|sets| - 1]);
      AllSampleLines(sets[..|sets| - 1], samples) + PairLines(last.0, last.1)
  }

  /** Two lines per printed pair, summed over the splits. */
  function SampledCount(sets: seq<string>, samples: string -> (seq<string>, seq<string>)): nat
    decreases |sets|
  {
    if sets == [] then 0
    else
      var last := samples(sets[|sets| - 1]);
      SampledCount(sets[..|sets| - 1], samples) + 2 * Min(|last.0|, |last.1|)
  }

  lemma {:induction false} AllSampleLinesCount(sets: seq<string>, samples: string -> (seq<string>, seq<string>))
    ensures |AllSampleLines(sets, samples)| == SampledCount(sets, samples)
    decreases |sets|
  {
    if sets != [] {
      AllSampleLinesCount(sets[..|sets| - 1], samples);
    }
  }

  /** `ReduceLearningRate`. */
  class LearningRateReducer {
    const patience: int
    const reduceNb: int
    const isEarlyStopping: bool
    const verbose: int
    const model: Trainer
    var wait: int
    var bestScore: real
    var currentReduceNb: int

    function State(): ReduceState
      reads this, model
    {
      ReduceState(bestScore, wait, currentReduceNb, model.stopTraining)
    }

    constructor (patience: int, reduceNb: int, isEarlyStopping: bool, verbose: int, model: Trainer)
      ensures this.patience == patience && this.reduceNb == reduceNb
      ensures this.isEarlyStopping == isEarlyStopping && this.verbose == verbose && this.model == model
      ensures State() == ReduceState(-1.0, 0, 0, model.stopTraining)
    {
      this.patience := patience;
      this.reduceNb := reduceNb;
      this.isEarlyStopping := isEarlyStopping;
      this.verbose := verbose;
      this.model := model;
      wait := 0;
      bestScore := -1.0;
      currentReduceNb := 0;
    }

    /** `on_epoch_end(epoch, logs)`, given `logs.get('val_acc')`. */
    method OnEpochEnd(epoch: int, valAcc: Option<real>)
      modifies this, model
      ensures State() == ReduceObserve(old(State()), valAcc, patience, isEarlyStopping)
    {
      if valAcc.None? {
        return;
      }
      var score := valAcc.value;
      if score > bestScore {
        bestScore := score;
        wait := 0;
      } else {
        if wait >= patience {
          currentReduceNb := currentReduceNb + 1;
          if isEarlyStopping {
            model.stopTraining := true;
          }
        }
        wait := wait + 1;
      }
    }
  }
}
