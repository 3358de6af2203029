/** The answer counter of experiments/evaluator/accuracy.py. */
module Accuracies {
  import opened Wrappers

  class Accuracy {
    var correct: nat
    var total: nat

    ghost predicate Valid()
      reads this
    {
      correct <= total
    }

    /** Both counts start at zero. */
    constructor ()
      ensures Valid() && correct == 0 && total == 0
    {
      correct, total := 0, 0;
    }

    /** update: one more answer, and one more correct one exactly when the prediction is the target. */
    method Update(predicted: string, target: string)
      requires Valid()
      modifies this
      ensures Valid()
      ensures total == old(total) + 1
      ensures correct == old(correct) + (if predicted == target then 1 else 0)
    {
      correct := correct + (if predicted == target then 1 else 0);
      total := total + 1;
    }

    /** get: the share of correct answers; division by zero while nothing was counted. */
    method Get() returns (r: Result<real>)
      requires Valid()
      ensures r.Ok? <==> total > 0
      ensures r.Ok? ==> 0.0 <= r.value <= 1.0 && r.value * total as real == correct as real
    {
      if total == 0 {
        return Raised("ZeroDivisionError: division by zero");
      }
      r := Ok(correct as real / total as real);
    }
  }
}
