/**
 * The best-score / patience bookkeeping of the metric callbacks and of the
 * learning-rate reducer, as transitions on their state. Scores are only
 * compared, so a `real` stands for them.
 */
module EarlyStopping {
  import opened Wrappers

  /**
   * The early-stop state of a metric callback: `best_score`, the epoch or
   * update it was reached at (`best_epoch` / `best_update`, unset until the
   * first improvement), the `wait` counter, and the trainer's
   * `stop_training` flag.
   */
  datatype StopState = StopState(bestScore: real, bestAt: Option<nat>, wait: int, stop: bool)

  /** The state a callback is constructed with: best score -1, nothing waited. */
  function Fresh(stop: bool): StopState {
    StopState(-1.0, None, 0, stop)
  }

  /**
   * One early-stop check: the score just evaluated at counter `at`. A score
   * strictly above the best replaces it and resets the counter; any other
   * score (ties included) counts one more evaluation without improvement,
   * and raises the stop flag when the counter had already reached
   * `patience` -- but only when `verbose > 0`, since the assignment sits
   * inside the logging branch. That logging branch also reads the best
   * counter, which is unset before the first improvement: an
   * AttributeError naming `attr`.
   */
  function Observe(st: StopState, score: real, at: nat, patience: int, verbose: int, attr: string)
    : Result<StopState, PyError>
  {
    if score > st.bestScore then Ok(StopState(score, Some(at), 0, st.stop))
    else if st.wait >= patience && verbose > 0 && st.bestAt.None? then Err(AttributeError(attr))
    else Ok(st.(wait := st.wait + 1, stop := st.stop || (st.wait >= patience && verbose > 0)))
  }

  /** A sequence of checks, each a score and the counter it was evaluated at. */
  function Run(st: StopState, obs: seq<(real, nat)>, patience: int, verbose: int, attr: string)
    : Result<StopState, PyError>
    decreases |obs|
  {
    if obs == [] then Ok(st)
    else
      match Observe(st, obs[0].0, obs[0].1, patience, verbose, attr)
      case Err(e) => Err(e)
      case Ok(next) => Run(next, obs[1..], patience, verbose, attr)
  }

  /**
   * The single-check contract: an improvement is exactly a strictly
   * greater score; otherwise the best is kept and wait grows by exactly one.
   */
  lemma ObserveCases(st: StopState, score: real, at: nat, patience: int, verbose: int, attr: string)
    ensures var r := Observe(st, score, at, patience, verbose, attr);
      (r.Err? <==> score <= st.bestScore && st.wait >= patience && verbose > 0 && st.bestAt.None?)
      && (r.Ok? && score > st.bestScore ==> r.value == StopState(score, Some(at), 0, st.stop))
      && (r.Ok? && score <= st.bestScore ==>
            r.value.bestScore == st.bestScore && r.value.bestAt == st.bestAt
            && r.value.wait == st.wait + 1
            && (r.value.stop <==> st.stop || (st.wait >= patience && verbose > 0)))
  {
  }

  /** Once a best counter is recorded, or without logging, no check fails. */
  lemma {:induction false} RunSucceeds(st: StopState, obs: seq<(real, nat)>, patience: int, verbose: int, attr: string)
    requires st.bestAt.Some? || verbose <= 0
    ensures Run(st, obs, patience, verbose, attr).Ok?
    decreases |obs|
  {
    if obs != [] {
      var next := Observe(st, obs[0].0, obs[0].1, patience, verbose, attr);
      RunSucceeds(next.value, obs[1..], patience, verbose, attr);
    }
  }

  /**
   * A run of checks none of which beats the best: the best is untouched,
   * wait grows by the number of checks, and the stop flag is raised exactly
   * when the last check found wait already at `patience` or more (and
   * verbose > 0), i.e. after more than `patience - wait` of them.
   */
  lemma {:induction false} NonImprovingRun(st: StopState, obs: seq<(real, nat)>, patience: int, verbose: int, attr: string)
    requires forall i :: 0 <= i < |obs| ==> obs[i].0 <= st.bestScore
    requires Run(st, obs, patience, verbose, attr).Ok?
    ensures var r := Run(st, obs, patience, verbose, attr).value;
      r.bestScore == st.bestScore && r.bestAt == st.bestAt
      && r.wait == st.wait + |obs|
      && (r.stop <==> st.stop || (verbose > 0 && |obs| > 0 && st.wait + |obs| - 1 >= patience))
    decreases |obs|
  {
    if obs != [] {
      var next := Observe(st, obs[0].0, obs[0].1, patience, verbose, attr).value;
      NonImprovingRun(next, obs[1..], patience, verbose, attr);
    }
  }

  /** Without logging (verbose <= 0) the stop flag never changes. */
  lemma {:induction false} QuietNeverStops(st: StopState, obs: seq<(real, nat)>, patience: int, verbose: int, attr: string)
    requires verbose <= 0
    ensures Run(st, obs, patience, verbose, attr).Ok?
    ensures Run(st, obs, patience, verbose, attr).value.stop == st.stop
    decreases |obs|
  {
    if obs != [] {
      var next := Observe(st, obs[0].0, obs[0].1, patience, verbose, attr).value;
      QuietNeverStops(next, obs[1..], patience, verbose, attr);
    }
  }

  /**
   * The best score is the maximum of the initial best and every score
   * checked, and it was reached by one of them unless it is the initial one.
   */
  lemma {:induction false} BestIsMaximum(st: StopState, obs: seq<(real, nat)>, patience: int, verbose: int, attr: string)
    requires Run(st, obs, patience, verbose, attr).Ok?
    ensures var r := Run(st, obs, patience, verbose, attr).value;
      r.bestScore >= st.bestScore
      && (forall i :: 0 <= i < |obs| ==> obs[i].0 <= r.bestScore)
      && (r.bestScore == st.bestScore || exists i :: 0 <= i < |obs| && obs[i].0 == r.bestScore)
    decreases |obs|
  {
    if obs != [] {
      var next := Observe(st, obs[0].0, obs[0].1, patience, verbose, attr).value;
      BestIsMaximum(next, obs[1..], patience, verbose, attr);
      var r := Run(st, obs, patience, verbose, attr).value;
      assert r == Run(next, obs[1..], patience, verbose, attr).value;
      forall i | 0 <= i < |obs| ensures obs[i].0 <= r.bestScore {
        if i > 0 {
          assert obs[i] == obs[1..][i - 1];
        }
      }
      if r.bestScore != st.bestScore && r.bestScore != next.bestScore {
        var i :| 0 <= i < |obs[1..]| && obs[1..][i].0 == r.bestScore;
        assert obs[i + 1].0 == r.bestScore;
      }
    }
  }

  /**
   * Ties do not count as improvements, so the counter recorded with a new
   * best is that of the FIRST check that reached it.
   */
  lemma {:induction false} BestRecordedAtFirstReach(st: StopState, obs: seq<(real, nat)>, patience: int, verbose: int, attr: string)
    requires Run(st, obs, patience, verbose, attr).Ok?
    requires Run(st, obs, patience, verbose, attr).value.bestScore > st.bestScore
    ensures var r := Run(st, obs, patience, verbose, attr).value;
      exists i :: 0 <= i < |obs| && obs[i].0 == r.bestScore && r.bestAt == Some(obs[i].1)
        && forall j :: 0 <= j < i ==> obs[j].0 < r.bestScore
    decreases |obs|
  {
    var next := Observe(st, obs[0].0, obs[0].1, patience, verbose, attr).value;
    var r := Run(st, obs, patience, verbose, attr).value;
    assert r == Run(next, obs[1..], patience, verbose, attr).value;
    BestIsMaximum(next, obs[1..], patience, verbose, attr);
    if r.bestScore > next.bestScore {
      BestRecordedAtFirstReach(next, obs[1..], patience, verbose, attr);
      var i :| 0 <= i < |obs[1..]| && obs[1..][i].0 == r.bestScore && r.bestAt == Some(obs[1..][i].1)
        && forall j :: 0 <= j < i ==> obs[1..][j].0 < r.bestScore;
      forall j | 0 <= j < i + 1 ensures obs[j].0 < r.bestScore {
        if j > 0 {
          assert obs[j] == obs[1..][j - 1];
        }
      }
      assert obs[i + 1] == obs[1..][i];
    } else {
      assert r.bestScore == next.bestScore && next.bestScore != st.bestScore;
      NonImprovingRun(next, obs[1..], patience, verbose, attr);
    }
  }

  /**
   * The reducer's state: `best_score`, `wait`, `current_reduce_nb` and the
   * trainer's `stop_training` flag.
   */
  datatype ReduceState = ReduceState(bestScore: real, wait: int, reductions: int, stop: bool)

  /**
   * `ReduceLearningRate.on_epoch_end` on the epoch's `val_acc` (None when
   * the logs lack it). A non-improving epoch with wait at `patience` or more
   * counts one more reduction and, with `is_early_stopping`, raises the stop
   * flag; the limit `reduce_nb` plays no part.
   */
  function ReduceObserve(st: ReduceState, score: Option<real>, patience: int, isEarlyStopping: bool): ReduceState {
    match score
    case None => st
    case Some(x) =>
      if x > st.bestScore then st.(bestScore := x, wait := 0)
      else
        var due := st.wait >= patience;
        ReduceState(st.bestScore, st.wait + 1,
                    if due then st.reductions + 1 else st.reductions,
                    st.stop || (due && isEarlyStopping))
  }

  function ReduceRun(st: ReduceState, scores: seq<Option<real>>, patience: int, isEarlyStopping: bool): ReduceState
    decreases |scores|
  {
    if scores == [] then st
    else ReduceRun(ReduceObserve(st, scores[0], patience, isEarlyStopping), scores[1..], patience, isEarlyStopping)
  }

  /** How many of `k` consecutive waits, starting at `w`, are at `p` or more. */
  function Overdue(w: int, k: nat, p: int): nat {
    if w + k <= p then 0 else if w >= p then k else w + k - p
  }

  /**
   * Over `k` epochs without improvement the reducer counts one reduction
   * per epoch whose wait was already at `patience`, and stops (with
   * early stopping on) exactly when there was at least one.
   */
  lemma {:induction false} ReduceNonImproving(st: ReduceState, scores: seq<Option<real>>, patience: int, isEarlyStopping: bool)
    requires forall i :: 0 <= i < |scores| ==> scores[i].Some? && scores[i].value <= st.bestScore
    ensures var r := ReduceRun(st, scores, patience, isEarlyStopping);
      r.bestScore == st.bestScore && r.wait == st.wait + |scores|
      && r.reductions == st.reductions + Overdue(st.wait, |scores|, patience)
      && (r.stop <==> st.stop || (isEarlyStopping && Overdue(st.wait, |scores|, patience) > 0))
    decreases |scores|
  {
    if scores != [] {
      var next := ReduceObserve(st, scores[0], patience, isEarlyStopping);
      ReduceNonImproving(next, scores[1..], patience, isEarlyStopping);
    }
  }

  /** Epochs whose logs lack `val_acc` leave the reducer exactly as it was. */
  lemma {:induction false} ReduceSkipsMissing(st: ReduceState, scores: seq<Option<real>>, patience: int, isEarlyStopping: bool)
    requires forall i :: 0 <= i < |scores| ==> scores[i].None?
    ensures ReduceRun(st, scores, patience, isEarlyStopping) == st
    decreases |scores|
  {
    if scores != [] {
      ReduceSkipsMissing(st, scores[1..], patience, isEarlyStopping);
    }
  }

  /**
   * `reduce_nb` is never consulted: whatever limit is configured, enough
   * epochs without improvement count more reductions than it.
   */
  lemma ReductionsExceedAnyLimit(st: ReduceState, reduceNb: nat, patience: int, isEarlyStopping: bool)
    requires st.reductions >= 0 && st.wait >= patience
    ensures var scores := seq(reduceNb + 1, _ => Some(st.bestScore));
      ReduceRun(st, scores, patience, isEarlyStopping).reductions > reduceNb
  {
    var scores := seq(reduceNb + 1, _ => Some(st.bestScore));
    ReduceNonImproving(st, scores, patience, isEarlyStopping);
  }
}
