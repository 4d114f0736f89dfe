/** run_check as a whole (fine_tuning_data_checker.py:49-166): the
    validation pass, then the estimate. Reading the file and printing are
    left to the caller; the result carries what the report shows. */
module Checker {
  import opened Json
  import opened Validator
  import opened Estimator

  /** How a run ends.
      - Raised: a record made the scan raise; the run stops before the
        error report is printed, with only the example count (line 57)
        printed.
      - NoDistribution: the error report is printed, then the first
        distribution, over an empty list, raises (min of an empty
        sequence), so no estimate is made.
      - Complete: the error report, the distributions and the estimate. */
  datatype Outcome =
    | Raised
    | NoDistribution(validation: Validation)
    | Complete(validation: Validation, estimate: Estimate)

  method RunCheck(dataset: seq<JVal>, tok: string -> nat) returns (outcome: Outcome)
    ensures outcome.Raised? <==> ValidateAll(dataset, tok).None?
    ensures !outcome.Raised? ==> Some(outcome.validation) == ValidateAll(dataset, tok)
    ensures !outcome.Raised? ==> WellFormed(outcome.validation, |dataset|)
    ensures outcome.NoDistribution? <==> ValidateAll(dataset, tok).Some? && ValidMessages(dataset) == 0
    ensures outcome.Complete? ==> |dataset| >= 1
                                  && outcome.estimate == EstimateCost(outcome.validation.convoLens, |dataset|)
  {
    var validated := Validate(dataset, tok);
    match validated
    case None =>
      outcome := Raised;
    case Some(validation) =>
      if validation.messagesPerExample == [] {
        outcome := NoDistribution(validation);
      } else {
        outcome := Complete(validation, EstimateCost(validation.convoLens, |dataset|));
      }
  }

  /** The epochs of a completed run stay within the defaults' bounds, in
      fact within 1..15, and the charge is the billed tokens times them. */
  lemma CompleteRunBounds(dataset: seq<JVal>, v: Validation, e: Estimate)
    requires |dataset| >= 1 && e == EstimateCost(v.convoLens, |dataset|)
    ensures 1 <= e.epochs <= 15
    ensures e.chargedTokens <= 15 * (MaxTokensPerExample * |v.convoLens|)
  {
    MulBound(e.epochs, e.billedTokens, 15, MaxTokensPerExample * |v.convoLens|);
  }
}
