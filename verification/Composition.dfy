/** The engine with the scoring client of jev/client.go as its scorer. */
module Composition {
  import opened Transcript
  import opened Groups
  import opened Scores
  import opened Representations
  import opened Greedy
  import opened Evaluations
  import opened Selection
  import opened Engine
  import opened Questions
  import opened Asking
  import opened Agreement
  import Batching
  import Client

  lemma {:induction false} MadeAreDistinct(groups: seq<Group>, make: Group --> Candidate, h: nat)
    requires DistinctIds(groups) && h <= |groups|
    requires forall k :: 0 <= k < |groups| ==> make.requires(groups[k]) && make(groups[k]).id == groups[k].id
    requires forall k :: 0 <= k < |groups| ==> DistinctActions(make(groups[k]).variants)
    ensures DistinctCandidates(Made(groups, make, h))
  {
    if h > 0 {
      MadeAreDistinct(groups, make, h - 1);
      var front := Made(groups, make, h - 1);
      forall i | 0 <= i < |front|
        ensures front[i].id != groups[h - 1].id
      {
        assert front[i] in front;
        var g := MadeFrom(groups, make, h - 1, front[i]);
      }
    }
  }

  /** What the engine asks about has distinct ids, and distinct actions under each. */
  lemma CandidatesAreDistinct(env: Env, req: Request, groups: seq<Group>, snapshot: string)
    requires Laid(req.messages, groups) && AllInRange(groups, |req.messages|)
    ensures DistinctCandidates(Candidates(env, req, groups, snapshot))
  {
    var make := Maker(env, req, snapshot);
    GroupIdsAreDistinct(req.messages, groups);
    forall k | 0 <= k < |groups|
      ensures make.requires(groups[k]) && make(groups[k]).id == groups[k].id
      ensures DistinctActions(make(groups[k]).variants)
    {
      CandidateVariants(env, req, groups[k], snapshot);
      OffersHonest(env, req, groups[k], snapshot);
    }
    MadeAreDistinct(groups, make, |groups|);
  }

  /** The scorer's answer to this evaluation is that of the client, whose requests got these replies. */
  ghost predicate AnswersLikeTheClient(config: Batching.Config, wire: Client.Wire, reply: nat -> Option<Reply>,
                                       eval: Evaluation, answer: Option<map<string, Score>>)
  {
    answer.Some? ==>
      && Client.Fitted(config, wire, eval).Some?
      && Client.ScoredBy(Client.FittedPass(config, wire, eval), reply, answer.value)
  }

  /** The engine gets as far as asking the scorer. */
  ghost predicate AsksScorer(env: Env, clone: Request, groups: seq<Group>, snapshot: string)
    requires AllInRange(groups, |clone.messages|)
  {
    && Count(env, clone.messages) > clone.target
    && (Count(env, ProtectedMessages(clone.messages, groups, |groups|)) <= clone.target || clone.allowPartial)
    && Candidates(env, clone, groups, snapshot) != []
  }

  lemma ClientIsValid(config: Batching.Config, wire: Client.Wire, reply: nat -> Option<Reply>, eval: Evaluation,
                      scores: map<string, Score>)
    returns (answer: Question -> real)
    requires AnswersLikeTheClient(config, wire, reply, eval, Some(scores)) && DistinctCandidates(eval.candidates)
    ensures ValidScores(eval.candidates, scores)
    ensures scores == Table(config.keepScoring, answer, eval.candidates)
  {
    answer := Client.SuccessIsAccepted(Client.FittedPass(config, wire, eval), reply, scores);
  }

  /**
   End to end: with this client, scoring fails exactly when the client returns an error; and
   when it does not, the scores the groups are selected by are the answers it received.
   */
  lemma ScoringFailsOnlyWithTheClient(
      env: Env, req: Request, groups: seq<Group>, snapshot: string, scorer: Scorer, sel: seq<Choice>,
      r: CompactResult, config: Batching.Config, wire: Client.Wire, reply: nat -> Option<Reply>)
    returns (answer: Question -> real)
    requires Accepts(env.validJson, req) && IsGrouping(req, groups) && AllInRange(groups, |req.messages|)
    requires Outcome(env, req, groups, snapshot, scorer, sel, r)
    requires var eval := EvaluationOf(env, Clone(env, req), groups, snapshot);
      AnswersLikeTheClient(config, wire, reply, eval, scorer(eval))
    ensures var clone := Clone(env, req);
      var eval := EvaluationOf(env, clone, groups, snapshot);
      && (r.status == "scoring_failed" <==> AsksScorer(env, clone, groups, snapshot) && scorer(eval).None?)
      && (AsksScorer(env, clone, groups, snapshot) && scorer(eval).Some? ==>
            && r.scores == scorer(eval)
            && r.scores == Some(Table(config.keepScoring, answer, eval.candidates)))
  {
    var clone := Clone(env, req);
    var eval := EvaluationOf(env, clone, groups, snapshot);
    answer := _ => 0.0;
    if scorer(eval).Some? {
      GroupingLays(env, req, groups);
      CandidatesAreDistinct(env, clone, groups, snapshot);
      answer := ClientIsValid(config, wire, reply, eval, scorer(eval).value);
      assert Scored(scorer, eval) == scorer(eval);
    }
  }
}
