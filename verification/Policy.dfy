/** The selection policy of compact/selection.go gate by gate, and which scores are valid. */
module Policy {
  import opened Transcript
  import opened Scores

  // ----- which actions are permitted, and at what loss -----

  /** Retention scores: nothing may be changed whose exact result is needed with probability 0.5 or more. */
  lemma RetentionGate(score: Score, action: string)
    requires score.keep.Some?
    ensures ActionLoss(score, action).Some? <==>
      && score.keep.value.result < 0.5
      && (action == "brief" || (action == "drop" && score.keep.value.call < 0.5))
    ensures ActionLoss(score, action).Some? && action == "brief" ==>
      ActionLoss(score, action).value == score.keep.value.result
    ensures ActionLoss(score, action).Some? && action == "drop" ==>
      && ActionLoss(score, action).value >= score.keep.value.call
      && ActionLoss(score, action).value >= score.keep.value.result
      && ActionLoss(score, action).value in {score.keep.value.call, score.keep.value.result}
  {
  }

  /** Per-action losses: exactly the actions with an estimate below 0.2, at that estimate. */
  lemma LossGate(score: Score, action: string)
    requires score.keep.None? && score.loss.Some?
    ensures ActionLoss(score, action).Some? <==> action in score.loss.value && score.loss.value[action] < 0.2
    ensures ActionLoss(score, action).Some? ==> ActionLoss(score, action).value == score.loss.value[action]
  {
  }

  /** The legacy gates: detail below 0.2, and for removal relevance below 0.2. */
  lemma LegacyGate(score: Score, action: string)
    requires score.keep.None? && score.loss.None?
    ensures ActionLoss(score, action).Some? <==>
      && score.detail < 0.2 && action in {"extract", "brief", "reference", "drop"}
      && (action == "drop" ==> score.relevance < 0.2)
  {
  }

  /** Under the legacy gates the coarser form always costs more, and every loss stays below 0.2. */
  lemma LegacyOrder(score: Score)
    requires score.keep.None? && score.loss.None? && 0.0 <= score.detail < 0.2 && 0.0 <= score.relevance < 0.2
    ensures ActionLoss(score, "extract") == Some(0.01 + score.detail / 20.0)
    ensures ActionLoss(score, "brief").value == 2.0 * ActionLoss(score, "extract").value
    ensures ActionLoss(score, "reference").value == 0.05 + score.detail / 5.0
    ensures ActionLoss(score, "drop").value
      == ActionLoss(score, "reference").value + 0.05 + score.relevance / 5.0
    ensures 0.0 < ActionLoss(score, "extract").value < ActionLoss(score, "brief").value
    ensures ActionLoss(score, "brief").value < ActionLoss(score, "reference").value
    ensures ActionLoss(score, "reference").value < ActionLoss(score, "drop").value < 0.2
  {
  }

  // ----- which scores are valid -----

  predicate InUnit(p: real) {
    0.0 <= p && p <= 1.0
  }

  /** The scores name every candidate, under one policy each, with probabilities for all that the policy reads. */
  lemma ValidExactly(candidates: seq<Candidate>, scores: map<string, Score>)
    ensures ValidScores(candidates, scores) <==> forall i :: 0 <= i < |candidates| ==>
      var c := candidates[i];
      && c.id in scores
      && match (scores[c.id].keep, scores[c.id].loss)
         case (Some(keep), None) => InUnit(keep.call) && InUnit(keep.result)
         case (None, Some(loss)) =>
           forall j :: 0 <= j < |c.variants| ==> c.variants[j].action in loss && InUnit(loss[c.variants[j].action])
         case (None, None) => InUnit(scores[c.id].relevance) && InUnit(scores[c.id].detail)
         case (Some(_), Some(_)) => false
  {
    if ValidScores(candidates, scores) {
      forall i, j | 0 <= i < |candidates| && 0 <= j < |candidates[i].variants|
        ensures candidates[i] in candidates && candidates[i].variants[j] in candidates[i].variants
      {
      }
    }
  }
}
