/** Shared vocabulary of the classifier model: the Python exceptions the
    core can raise, a result type carrying them, and the binary
    (one-vs-rest) confusion counts used by every evaluator. */
module Common {

  /** The exceptions the Python code lets escape, by kind. */
  datatype Error =
    | IndexError         // `y.iloc[i]` past the end of the labels
    | KeyError           // a label missing from a dict
    | ZeroDivisionError  // `/` with a zero denominator
    | ValueError         // `max` of an empty dict

  datatype Result<+T> = Success(value: T) | Failure(error: Error)

  datatype Option<+T> = None | Some(value: T)

  /** A loop that stops at the first exception: the results of all steps
      in order, or the error of the first step that raised. */
  function Collect<T>(rs: seq<Result<T>>): (r: Result<seq<T>>)
    ensures r.Success? ==> |r.value| == |rs|
  {
    if rs == [] then Success([])
    else
      var n := |rs| - 1;
      var front := Collect(rs[..n]);
      if front.Failure? then front
      else if rs[n].Failure? then Failure(rs[n].error)
      else Success(front.value + [rs[n].value])
  }

  /** The loop succeeds exactly when every step does, with the steps'
      results in order; otherwise it fails with the error of the first step
      that fails. */
  lemma CollectSpec<T>(rs: seq<Result<T>>)
    ensures Collect(rs).Success? <==> forall k :: 0 <= k < |rs| ==> rs[k].Success?
    ensures Collect(rs).Success? ==> forall k :: 0 <= k < |rs| ==> Collect(rs).value[k] == rs[k].value
    ensures Collect(rs).Failure? ==>
              exists i :: 0 <= i < |rs| && rs[i].Failure? && Collect(rs).error == rs[i].error
                          && forall k :: 0 <= k < i ==> rs[k].Success?
  {
    CollectSuccess(rs);
    if Collect(rs).Failure? {
      var i := CollectFailure(rs);
    }
  }

  /** The success half of `CollectSpec`. */
  lemma {:induction false} CollectSuccess<T>(rs: seq<Result<T>>)
    ensures Collect(rs).Success? <==> forall k :: 0 <= k < |rs| ==> rs[k].Success?
    ensures Collect(rs).Success? ==> forall k :: 0 <= k < |rs| ==> Collect(rs).value[k] == rs[k].value
  {
    if rs != [] {
      var n := |rs| - 1;
      var front := rs[..n];
      CollectSuccess(front);
      assert forall k :: 0 <= k < n ==> front[k] == rs[k];
    }
  }

  /** The failure half of `CollectSpec`: the index of the first failing step. */
  lemma {:induction false} CollectFailure<T>(rs: seq<Result<T>>) returns (i: nat)
    requires Collect(rs).Failure?
    ensures i < |rs| && rs[i].Failure? && Collect(rs).error == rs[i].error
    ensures forall k :: 0 <= k < i ==> rs[k].Success?
  {
    var n := |rs| - 1;
    var front := rs[..n];
    if Collect(front).Failure? {
      i := CollectFailure(front);
      assert front[i] == rs[i];
      assert forall k :: 0 <= k < i ==> front[k] == rs[k];
    } else {
      CollectSuccess(front);
      assert forall k :: 0 <= k < n ==> front[k] == rs[k];
      i := n;
    }
  }

  /** One more step of the loop. */
  lemma CollectStep<T>(rs: seq<Result<T>>, i: nat, done: seq<T>)
    requires i < |rs| && Collect(rs[..i]) == Success(done)
    ensures Collect(rs[..i + 1]) == if rs[i].Failure? then Failure(rs[i].error) else Success(done + [rs[i].value])
  {
    assert rs[..i + 1][..i] == rs[..i];
  }

  /** Once a step has failed, the later steps do not matter. */
  lemma {:induction false} CollectStops<T>(rs: seq<Result<T>>, i: nat)
    requires i <= |rs| && Collect(rs[..i]).Failure?
    ensures Collect(rs) == Collect(rs[..i])
    decreases |rs| - i
  {
    if i < |rs| {
      var n := |rs| - 1;
      assert rs[..n][..i] == rs[..i];
      CollectStops(rs[..n], i);
    } else {
      assert rs[..i] == rs;
    }
  }

  /** Which of the four one-vs-rest cells a (true, predicted) pair falls in. */
  datatype Bucket = TP | FP | FN | TN

  /** The if/elif chain of the source: a pair is positive in the true label
      when `actual` holds and predicted positive when `predicted` holds. */
  function BucketOf(actual: bool, predicted: bool): (b: Bucket)
    ensures b == TP <==> actual && predicted
    ensures b == FP <==> !actual && predicted
    ensures b == FN <==> actual && !predicted
    ensures b == TN <==> !actual && !predicted
  {
    if actual && predicted then TP
    else if !actual && predicted then FP
    else if actual then FN
    else TN
  }

  /** One `{'TP': .., 'FP': .., 'TN': .., 'FN': ..}` record. */
  datatype Counts = Counts(tp: nat, fp: nat, fn: nat, tn: nat)
  {
    function Total(): nat { tp + fp + fn + tn }

    /** Positives in the true label: TP + FN. */
    function Actual(): nat { tp + fn }

    /** Predicted positives: TP + FP. */
    function Predicted(): nat { tp + fp }

    /** `cm[category][b] += k` */
    function Bump(b: Bucket, k: nat): Counts
    {
      match b
      case TP => this.(tp := tp + k)
      case FP => this.(fp := fp + k)
      case FN => this.(fn := fn + k)
      case TN => this.(tn := tn + k)
    }
  }

  const Zero := Counts(0, 0, 0, 0)

  /** Bumping one cell by `k` adds `k` to the total and to exactly the
      marginals that cell belongs to. */
  lemma BumpEffect(x: Counts, b: Bucket, k: nat)
    ensures x.Bump(b, k).Total() == x.Total() + k
    ensures x.Bump(b, k).tp == x.tp + (if b == TP then k else 0)
    ensures x.Bump(b, k).Actual() == x.Actual() + (if b == TP || b == FN then k else 0)
    ensures x.Bump(b, k).Predicted() == x.Predicted() + (if b == TP || b == FP then k else 0)
  {
  }
}
