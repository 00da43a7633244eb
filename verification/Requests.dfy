/** What a request asks: the body that is sent, and the answers it is read by. */
module Requests {
  import opened Text
  import opened Transcript
  import opened Scores
  import opened Questions
  import opened Batching
  import opened Asking
  import opened Agreement
  import opened Client

  // ----- the state a body carries -----

  /** The state is the evaluation with the candidates of the request; under KeepScoring without their variants. */
  ghost predicate CarriesState(keep: bool, eval: Evaluation, list: seq<Candidate>, state: Evaluation) {
    && state.goal == eval.goal && state.context == eval.context && |state.candidates| == |list|
    && forall i :: 0 <= i < |list| ==>
         var sent := state.candidates[i];
         && sent.id == list[i].id && sent.preview == list[i].preview && sent.complete == list[i].complete
         && sent.tokens == list[i].tokens && sent.variants == if keep then [] else list[i].variants
  }

  // ----- the questions a body carries -----

  /** The key asks about candidate `c` at position `i`, in the way of the policy, and this is the question. */
  ghost predicate KeyAsks(keep: bool, c: Candidate, i: nat, key: string, question: Question) {
    if keep then
      || (key == "r" + Decimal(i) && question == CallNeeded(c.id))
      || (key == "d" + Decimal(i) && question == ResultNeeded(c.id))
    else if c.variants == [] then
      || (key == "r" + Decimal(i) && question == RelevanceOf(c.id))
      || (key == "d" + Decimal(i) && question == DetailOf(c.id))
    else exists j: nat ::
      j < |c.variants| && key == "l" + Decimal(i) + "_" + Decimal(j) && question == LossOf(c.id, c.variants[j].action)
  }

  /** Every question about a candidate of the request is there under its key, and nothing else is. */
  ghost predicate CarriesQuestions(keep: bool, list: seq<Candidate>, questions: map<string, Question>) {
    && (forall i: nat, key, question :: i < |list| && KeyAsks(keep, list[i], i, key, question) ==>
          key in questions && questions[key] == question)
    && (forall key :: key in questions ==> Asked(keep, list, key, questions[key]))
  }

  ghost predicate Asked(keep: bool, list: seq<Candidate>, key: string, question: Question) {
    exists i: nat :: i < |list| && KeyAsks(keep, list[i], i, key, question)
  }

  lemma AskIsKey(keep: bool, c: Candidate, i: nat, key: string, question: Question)
    ensures KeyAsks(keep, c, i, key, question) <==> Ask(key, question) in AsksFor(keep, c, i)
  {
    var asks := AsksFor(keep, c, i);
    if !keep && c.variants != [] {
      assert forall j :: 0 <= j < |asks| ==> asks[j] == Ask(LossKey(i, j), LossOf(c.id, c.variants[j].action));
      if KeyAsks(keep, c, i, key, question) {
        var j: nat :| j < |c.variants| && key == "l" + Decimal(i) + "_" + Decimal(j)
          && question == LossOf(c.id, c.variants[j].action);
        assert asks[j] == Ask(key, question);
      }
      if Ask(key, question) in asks {
        var j :| 0 <= j < |asks| && asks[j] == Ask(key, question);
      }
    }
  }

  lemma {:induction false} AskIn(keep: bool, list: seq<Candidate>, i: nat, ask: Ask)
    requires i < |list| && ask in AsksFor(keep, list[i], i)
    ensures ask in Asks(keep, list)
  {
    var last := |list| - 1;
    if i < last {
      AskIn(keep, list[..last], i, ask);
    }
  }

  lemma {:induction false} AskFrom(keep: bool, list: seq<Candidate>, ask: Ask) returns (i: nat)
    requires ask in Asks(keep, list)
    ensures i < |list| && ask in AsksFor(keep, list[i], i)
  {
    var last := |list| - 1;
    if ask in AsksFor(keep, list[last], last) {
      i := last;
    } else {
      i := AskFrom(keep, list[..last], ask);
    }
  }

  lemma {:induction false} MapHasAsks(asks: seq<Ask>, key: string)
    requires key in QuestionMap(asks)
    ensures Ask(key, QuestionMap(asks)[key]) in asks
  {
    var last := |asks| - 1;
    if asks[last].key != key {
      MapHasAsks(asks[..last], key);
    }
  }

  lemma AsksCarry(keep: bool, list: seq<Candidate>)
    ensures CarriesQuestions(keep, list, QuestionMap(Asks(keep, list)))
  {
    var asks := Asks(keep, list);
    var questions := QuestionMap(asks);
    AsksKeys(keep, list);
    forall i: nat, key, question | i < |list| && KeyAsks(keep, list[i], i, key, question)
      ensures key in questions && questions[key] == question
    {
      AskIsKey(keep, list[i], i, key, question);
      AskIn(keep, list, i, Ask(key, question));
      var p :| 0 <= p < |asks| && asks[p] == Ask(key, question);
      QuestionMapHolds(asks, p);
    }
    forall key | key in questions
      ensures Asked(keep, list, key, questions[key])
    {
      MapHasAsks(asks, key);
      var i := AskFrom(keep, list, Ask(key, questions[key]));
      AskIsKey(keep, list[i], i, key, questions[key]);
    }
  }

  // ----- the bodies of a plan -----

  /** The body is the encoding of the state and the questions of these candidates. */
  ghost predicate BodyOf(config: Config, wire: Wire, eval: Evaluation, list: seq<Candidate>, body: Option<string>) {
    exists state, questions ::
      && body == wire.encode(state, questions)
      && CarriesState(config.keepScoring, eval, list, state) && CarriesQuestions(config.keepScoring, list, questions)
  }

  lemma BodyCarries(config: Config, wire: Wire, eval: Evaluation, list: seq<Candidate>)
    ensures BodyOf(config, wire, eval, list, PassFor(config, wire, eval).body(list))
  {
    var keep := config.keepScoring;
    var state, questions := eval.(candidates := WireCandidates(keep, list)), QuestionMap(Asks(keep, list));
    AsksCarry(keep, list);
    assert CarriesState(keep, eval, list, state);
    assert PassFor(config, wire, eval).body(list) == wire.encode(state, questions);
  }

  /**
   Every body of a plan carries the state of its own candidates and, under the keys by
   which the answers are read, exactly their questions.
   */
  lemma PlannedBodiesCarry(config: Config, wire: Wire, eval: Evaluation, batches: seq<Batch>)
    requires Plan(PassFor(config, wire, eval), 0).Some?
    requires Carries(PassFor(config, wire, eval), batches, Plan(PassFor(config, wire, eval), 0).value)
    ensures forall b :: 0 <= b < |batches| ==>
      BodyOf(config, wire, eval, batches[b].candidates, Some(batches[b].body))
  {
    forall b | 0 <= b < |batches|
      ensures BodyOf(config, wire, eval, batches[b].candidates, Some(batches[b].body))
    {
      BodyCarries(config, wire, eval, batches[b].candidates);
    }
  }

  // ----- the answers -----

  /** A well-formed answer to this question: of the right kind, with this value, which is a probability. */
  ghost predicate Says(reply: Reply, key: string, value: real) {
    key in reply && reply[key].kind == "noul" && reply[key].noul == Some(value) && 0.0 <= value <= 1.0
  }

  lemma ProbabilityIsSaid(reply: Reply, key: string, value: real)
    ensures Probability(reply, key) == Some(value) <==> Says(reply, key, value)
  {
  }

  /** To every question it carries, the request has an answer, and that is the value of the question. */
  ghost predicate AnswersOwn(questions: map<string, Question>, reply: Reply, answer: Question -> real) {
    forall key :: key in questions ==> Says(reply, key, answer(questions[key]))
  }

  lemma AgreeAnswersOwn(keep: bool, list: seq<Candidate>, reply: Reply, answer: Question -> real,
                        questions: map<string, Question>)
    requires Agree(reply, Asks(keep, list), answer) && CarriesQuestions(keep, list, questions)
    ensures AnswersOwn(questions, reply, answer)
  {
    var asks := Asks(keep, list);
    forall key | key in questions
      ensures Says(reply, key, answer(questions[key]))
    {
      var i: nat :| i < |list| && KeyAsks(keep, list[i], i, key, questions[key]);
      AskIsKey(keep, list[i], i, key, questions[key]);
      AskIn(keep, list, i, Ask(key, questions[key]));
      var p :| 0 <= p < |asks| && asks[p] == Ask(key, questions[key]);
      ProbabilityIsSaid(reply, key, answer(questions[key]));
    }
  }

  // ----- the scores of a pass -----

  /** The score of a candidate, field by field, from the answers to its questions. */
  ghost predicate ScoredByAnswers(keep: bool, c: Candidate, s: Score, answer: Question -> real) {
    if keep then
      && s.keep == Some(KeepScore(answer(CallNeeded(c.id)), answer(ResultNeeded(c.id)))) && s.loss == None
    else if c.variants == [] then
      && s.keep == None && s.loss == None
      && s.relevance == answer(RelevanceOf(c.id)) && s.detail == answer(DetailOf(c.id))
    else
      && s.keep == None && s.loss.Some?
      && (forall a :: a in s.loss.value <==> exists v :: v in c.variants && v.action == a)
      && (forall v :: v in c.variants ==>
            v.action in s.loss.value && s.loss.value[v.action] == answer(LossOf(c.id, v.action)))
  }

  lemma {:induction false} LossesAreOf(answer: Question -> real, id: string, variants: seq<Variant>, a: string)
    ensures a in LossesBy(answer, id, variants) <==> exists v :: v in variants && v.action == a
  {
    if variants != [] {
      var front, last := variants[..|variants| - 1], variants[|variants| - 1];
      LossesAreOf(answer, id, front, a);
      assert variants == front + [last] && last in variants;
    }
  }

  lemma ScoreByIsAnswers(keep: bool, c: Candidate, answer: Question -> real)
    ensures ScoredByAnswers(keep, c, ScoreBy(keep, answer, c), answer)
  {
    if !keep && c.variants != [] {
      LossesHold(answer, c.id, c.variants);
      forall a
        ensures a in LossesBy(answer, c.id, c.variants) <==> exists v :: v in c.variants && v.action == a
      {
        LossesAreOf(answer, c.id, c.variants, a);
      }
    }
  }

  /** Each request answers its own questions. */
  ghost predicate AllAnswerOwn(config: Config, wire: Wire, eval: Evaluation, lists: Lists, reply: nat -> Option<Reply>,
                               answer: Question -> real)
  {
    forall b :: 0 <= b < |lists| ==>
      reply(b).Some? && BodyAnswered(config, wire, eval, lists[b], reply(b).value, answer)
  }

  /** The body carries questions, and the reply holds for each of them, under its key, its answer. */
  ghost predicate BodyAnswered(config: Config, wire: Wire, eval: Evaluation, list: seq<Candidate>, reply: Reply,
                               answer: Question -> real)
  {
    exists state, questions ::
      && PassFor(config, wire, eval).body(list) == wire.encode(state, questions)
      && CarriesState(config.keepScoring, eval, list, state) && CarriesQuestions(config.keepScoring, list, questions)
      && AnswersOwn(questions, reply, answer)
  }

  lemma BodyIsAnswered(config: Config, wire: Wire, eval: Evaluation, list: seq<Candidate>, reply: Reply,
                       answer: Question -> real)
    requires Agree(reply, Asks(config.keepScoring, list), answer)
    ensures BodyAnswered(config, wire, eval, list, reply, answer)
  {
    BodyCarries(config, wire, eval, list);
    var state, questions :|
      && PassFor(config, wire, eval).body(list) == wire.encode(state, questions)
      && CarriesState(config.keepScoring, eval, list, state) && CarriesQuestions(config.keepScoring, list, questions);
    AgreeAnswersOwn(config.keepScoring, list, reply, answer, questions);
  }

  /**
   The scores of a successful pass.  There is one answer for each question; every request
   has, under the key by which its body asks, the answer to the question its body carries;
   and the score of every candidate consists of the answers to its own questions.
   */
  lemma ScoresAreTheAnswers(config: Config, wire: Wire, eval: Evaluation, reply: nat -> Option<Reply>,
                            scores: map<string, Score>)
    returns (answer: Question -> real)
    requires ScoredBy(PassFor(config, wire, eval), reply, scores) && DistinctCandidates(eval.candidates)
    ensures AllAnswerOwn(config, wire, eval, Plan(PassFor(config, wire, eval), 0).value, reply, answer)
    ensures forall id :: id in scores <==> exists c :: c in eval.candidates && c.id == id
    ensures forall c :: c in eval.candidates ==>
      c.id in scores && ScoredByAnswers(config.keepScoring, c, scores[c.id], answer)
  {
    var p := PassFor(config, wire, eval);
    var lists := Plan(p, 0).value;
    answer := SuccessIsAccepted(p, reply, scores);
    forall b | 0 <= b < |lists|
      ensures reply(b).Some? && BodyAnswered(config, wire, eval, lists[b], reply(b).value, answer)
    {
      BodyIsAnswered(config, wire, eval, lists[b], reply(b).value, answer);
    }
    TableIsScores(config.keepScoring, answer, eval.candidates);
  }

  lemma TableIsScores(keep: bool, answer: Question -> real, candidates: seq<Candidate>)
    requires DistinctCandidates(candidates)
    ensures forall id :: id in Table(keep, answer, candidates) <==> exists c :: c in candidates && c.id == id
    ensures forall c :: c in candidates ==>
      && c.id in Table(keep, answer, candidates)
      && ScoredByAnswers(keep, c, Table(keep, answer, candidates)[c.id], answer)
  {
    forall c | c in candidates
      ensures c.id in Table(keep, answer, candidates)
      ensures ScoredByAnswers(keep, c, Table(keep, answer, candidates)[c.id], answer)
    {
      var i :| 0 <= i < |candidates| && candidates[i] == c;
      TableHolds(keep, answer, candidates, i);
      ScoreByIsAnswers(keep, c, answer);
    }
    forall id | id in Table(keep, answer, candidates)
      ensures exists c :: c in candidates && c.id == id
    {
      TableOnly(keep, answer, candidates, id);
    }
  }

  lemma {:induction false} TableOnly(keep: bool, answer: Question -> real, candidates: seq<Candidate>, id: string)
    requires id in Table(keep, answer, candidates)
    ensures exists c :: c in candidates && c.id == id
  {
    var front, last := candidates[..|candidates| - 1], candidates[|candidates| - 1];
    if last.id != id {
      TableOnly(keep, answer, front, id);
      var c :| c in front && c.id == id;
      assert c in candidates;
    } else {
      assert last in candidates;
    }
  }
}
