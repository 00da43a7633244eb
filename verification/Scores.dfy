/** Candidates, variants and scores (compact/types.go), and the policy gates of compact/selection.go. */
module Scores {
  import opened Transcript

  datatype Variant = Variant(action: string, messages: seq<Message>, tokens: nat)

  /** No action is proposed twice. */
  ghost predicate DistinctActions(variants: seq<Variant>) {
    forall j, k :: 0 <= j < k < |variants| ==> variants[j].action != variants[k].action
  }

  datatype Candidate = Candidate(id: string, preview: string, complete: bool, tokens: nat, variants: seq<Variant>)

  datatype Evaluation = Evaluation(goal: string, context: string, candidates: seq<Candidate>)

  datatype KeepScore = KeepScore(call: real, result: real)

  datatype Score = Score(keep: Option<KeepScore>, relevance: real, detail: real, loss: Option<map<string, real>>)

  /** What Go reads from a map of scores under an absent id. */
  const ZERO_SCORE := Score(None, 0.0, 0.0, None)

  function ScoreOf(scores: map<string, Score>, id: string): Score {
    if id in scores then scores[id] else ZERO_SCORE
  }

  const MAX_LOSS := 0.2

  function MaxReal(a: real, b: real): real {
    if a < b then b else a
  }

  /** The estimated loss of an action when the policy permits it, None when it does not. */
  function ActionLoss(score: Score, action: string): Option<real> {
    match score.keep
    case Some(keep) =>
      if keep.result >= 0.5 then None
      else if action == "brief" then Some(keep.result)
      else if action == "drop" && keep.call < 0.5 then Some(MaxReal(keep.call, keep.result))
      else None
    case None =>
      match score.loss
      case Some(loss) =>
        if action in loss && loss[action] < MAX_LOSS then Some(loss[action]) else None
      case None =>
        if score.detail >= MAX_LOSS || (action == "drop" && score.relevance >= MAX_LOSS) then None
        else if action == "extract" then Some(0.01 + 0.05 * score.detail)
        else if action == "brief" then Some(0.02 + 0.1 * score.detail)
        else if action == "reference" then Some(0.05 + 0.2 * score.detail)
        else if action == "drop" then Some(0.1 + 0.2 * (score.relevance + score.detail))
        else None
  }

  /**
   Without per-action losses, whatever may be dropped may also be kept in brief, at no
   higher loss, so the policy never leaves removal as the only way out.
   */
  lemma DropIsNeverTheOnlyWay(score: Score)
    requires score.loss.None? && ActionLoss(score, "drop").Some?
    requires score.keep.None? ==> 0.0 <= score.relevance && 0.0 <= score.detail
    ensures ActionLoss(score, "brief").Some?
    ensures ActionLoss(score, "brief").value <= ActionLoss(score, "drop").value
  {
  }

  // ----- validateScores -----

  predicate IsProbability(p: real) {
    0.0 <= p <= 1.0
  }

  /** The probabilities a score has to carry for a candidate are there and in range. */
  predicate ValidScore(c: Candidate, s: Score) {
    && !(s.keep.Some? && s.loss.Some?)
    && (s.keep.Some? ==> IsProbability(s.keep.value.call) && IsProbability(s.keep.value.result))
    && (s.loss.Some? ==> forall v :: v in c.variants ==>
          v.action in s.loss.value && IsProbability(s.loss.value[v.action]))
    && (s.keep.None? && s.loss.None? ==> IsProbability(s.relevance) && IsProbability(s.detail))
  }

  predicate ValidScores(candidates: seq<Candidate>, scores: map<string, Score>) {
    forall c :: c in candidates ==> c.id in scores && ValidScore(c, scores[c.id])
  }

  method ValidateLosses(c: Candidate, loss: map<string, real>) returns (ok: bool)
    ensures ok <==> forall v :: v in c.variants ==> v.action in loss && IsProbability(loss[v.action])
  {
    for j := 0 to |c.variants|
      invariant forall l :: 0 <= l < j ==> c.variants[l].action in loss && IsProbability(loss[c.variants[l].action])
    {
      var action := c.variants[j].action;
      if action !in loss || !IsProbability(loss[action]) {
        assert c.variants[j] in c.variants;
        return false;
      }
    }
    return true;
  }

  method ValidateScore(c: Candidate, s: Score) returns (ok: bool)
    ensures ok <==> ValidScore(c, s)
  {
    if s.keep.Some? && s.loss.Some? {
      return false;
    }
    if s.loss.Some? {
      ok := ValidateLosses(c, s.loss.value);
    } else if s.keep.Some? {
      ok := IsProbability(s.keep.value.call) && IsProbability(s.keep.value.result);
    } else {
      ok := IsProbability(s.relevance) && IsProbability(s.detail);
    }
  }

  method ValidateScores(candidates: seq<Candidate>, scores: map<string, Score>) returns (ok: bool)
    ensures ok <==> ValidScores(candidates, scores)
  {
    for i := 0 to |candidates|
      invariant forall j :: 0 <= j < i ==>
        candidates[j].id in scores && ValidScore(candidates[j], scores[candidates[j].id])
    {
      var c := candidates[i];
      assert c in candidates;
      if c.id !in scores {
        return false;
      }
      ok := ValidateScore(c, scores[c.id]);
      if !ok {
        return;
      }
    }
    return true;
  }
}
