/** An error-free scoring pass says what was answered, and the engine accepts it. */
module Agreement {
  import opened Scores
  import opened Questions
  import opened Batching
  import opened Asking
  import opened Merging

  type Reply = map<string, Answer>

  /** Every planned request was answered, and its answers could be decoded. */
  ghost predicate AllDecoded(keep: bool, replies: seq<Reply>, lists: Lists) {
    |replies| == |lists| && forall b :: 0 <= b < |lists| ==> Decode(keep, replies[b], lists[b]).Some?
  }

  function ReplyValues(keep: bool, reply: Reply, candidates: seq<Candidate>): (values: seq<real>)
    requires Decode(keep, reply, candidates).Some?
    ensures |values| == |QuestionList(keep, candidates)|
    ensures forall p :: 0 <= p < |values| ==> IsProbability(values[p])
  {
    DecodeNeedsAll(keep, reply, candidates);
    AsksAreQuestions(keep, candidates);
    var asks := Asks(keep, candidates);
    seq(|asks|, p requires 0 <= p < |asks| => Probability(reply, asks[p].key).value)
  }

  /** The answers of the whole pass, in the order of the questions. */
  function Values(keep: bool, replies: seq<Reply>, lists: Lists): (values: seq<real>)
    requires AllDecoded(keep, replies, lists)
    ensures |values| == |AllAsked(keep, lists)|
    ensures forall p :: 0 <= p < |values| ==> IsProbability(values[p])
    decreases |lists|
  {
    if lists == [] then [] else ReplyValues(keep, replies[0], lists[0]) + Values(keep, replies[1..], lists[1..])
  }

  function AnswerMap(questions: seq<Question>, values: seq<real>): map<Question, real>
    requires |questions| == |values|
  {
    if questions == [] then map[]
    else
      var last := |questions| - 1;
      AnswerMap(questions[..last], values[..last])[questions[last] := values[last]]
  }

  lemma {:induction false} AnswerMapHolds(questions: seq<Question>, values: seq<real>, p: nat)
    requires |questions| == |values| && NoneTwice(questions) && p < |questions|
    ensures questions[p] in AnswerMap(questions, values) && AnswerMap(questions, values)[questions[p]] == values[p]
  {
    var last := |questions| - 1;
    if p < last {
      AnswerMapHolds(questions[..last], values[..last], p);
    }
  }

  ghost predicate AnswersAre(answer: Question -> real, questions: seq<Question>, values: seq<real>) {
    |questions| == |values| && forall p :: 0 <= p < |questions| ==> answer(questions[p]) == values[p]
  }

  lemma AnswersSplit(answer: Question -> real, a: seq<Question>, x: seq<real>, b: seq<Question>, y: seq<real>)
    requires |a| == |x| && AnswersAre(answer, a + b, x + y)
    ensures AnswersAre(answer, a, x) && AnswersAre(answer, b, y)
  {
    assert forall p :: 0 <= p < |a| ==> (a + b)[p] == a[p] && (x + y)[p] == x[p];
    assert forall p :: 0 <= p < |b| ==> (a + b)[|a| + p] == b[p] && (x + y)[|a| + p] == y[p];
  }

  lemma ReplyAgrees(keep: bool, reply: Reply, candidates: seq<Candidate>, answer: Question -> real)
    requires Decode(keep, reply, candidates).Some?
    requires AnswersAre(answer, QuestionList(keep, candidates), ReplyValues(keep, reply, candidates))
    ensures Agree(reply, Asks(keep, candidates), answer)
  {
    AsksAreQuestions(keep, candidates);
    DecodeNeedsAll(keep, reply, candidates);
  }

  lemma {:induction false} RepliesAgree(keep: bool, replies: seq<Reply>, lists: Lists, answer: Question -> real, b: nat)
    requires AllDecoded(keep, replies, lists) && b < |lists|
    requires AnswersAre(answer, AllAsked(keep, lists), Values(keep, replies, lists))
    ensures Agree(replies[b], Asks(keep, lists[b]), answer)
    decreases |lists|
  {
    AnswersSplit(answer, QuestionList(keep, lists[0]), ReplyValues(keep, replies[0], lists[0]),
                 AllAsked(keep, lists[1..]), Values(keep, replies[1..], lists[1..]));
    if b == 0 {
      ReplyAgrees(keep, replies[0], lists[0], answer);
    } else {
      RepliesAgree(keep, replies[1..], lists[1..], answer, b - 1);
    }
  }

  // ----- the engine accepts the table -----

  lemma {:induction false} LossesHold(answer: Question -> real, id: string, variants: seq<Variant>)
    ensures forall v :: v in variants ==>
      v.action in LossesBy(answer, id, variants)
        && LossesBy(answer, id, variants)[v.action] == answer(LossOf(id, v.action))
  {
    if variants != [] {
      var front, last := variants[..|variants| - 1], variants[|variants| - 1];
      LossesHold(answer, id, front);
      assert variants == front + [last];
    }
  }

  lemma {:induction false} TableHolds(keep: bool, answer: Question -> real, candidates: seq<Candidate>, i: nat)
    requires i < |candidates|
    requires forall j, k :: 0 <= j < k < |candidates| ==> candidates[j].id != candidates[k].id
    ensures candidates[i].id in Table(keep, answer, candidates)
    ensures Table(keep, answer, candidates)[candidates[i].id] == ScoreBy(keep, answer, candidates[i])
  {
    var last := |candidates| - 1;
    if i < last {
      TableHolds(keep, answer, candidates[..last], i);
    }
  }

  lemma ScoreByValid(keep: bool, answer: Question -> real, c: Candidate)
    requires forall q :: q in QuestionsFor(keep, c) ==> IsProbability(answer(q))
    ensures ValidScore(c, ScoreBy(keep, answer, c))
  {
    var questions := QuestionsFor(keep, c);
    if !keep && c.variants != [] {
      LossesHold(answer, c.id, c.variants);
      forall v | v in c.variants
        ensures IsProbability(answer(LossOf(c.id, v.action)))
      {
        var j :| 0 <= j < |c.variants| && c.variants[j] == v;
        assert questions[j] == LossOf(c.id, v.action);
      }
    } else {
      assert questions[0] in questions && questions[1] in questions;
    }
  }

  lemma {:induction false} QuestionsOfMember(keep: bool, candidates: seq<Candidate>, i: nat)
    requires i < |candidates|
    ensures forall q :: q in QuestionsFor(keep, candidates[i]) ==> q in QuestionList(keep, candidates)
  {
    var last := |candidates| - 1;
    if i < last {
      QuestionsOfMember(keep, candidates[..last], i);
    }
  }

  lemma TableIsValid(keep: bool, answer: Question -> real, candidates: seq<Candidate>)
    requires forall j, k :: 0 <= j < k < |candidates| ==> candidates[j].id != candidates[k].id
    requires forall q :: q in QuestionList(keep, candidates) ==> IsProbability(answer(q))
    ensures ValidScores(candidates, Table(keep, answer, candidates))
  {
    forall c | c in candidates
      ensures c.id in Table(keep, answer, candidates) && ValidScore(c, Table(keep, answer, candidates)[c.id])
    {
      var i :| 0 <= i < |candidates| && candidates[i] == c;
      TableHolds(keep, answer, candidates, i);
      QuestionsOfMember(keep, candidates, i);
      ScoreByValid(keep, answer, c);
    }
  }

  /** The parts decoded from the replies. */
  function DecodedParts(keep: bool, replies: seq<Reply>, lists: Lists): (parts: seq<Part>)
    requires AllDecoded(keep, replies, lists)
    ensures |parts| == |lists|
  {
    seq(|lists|, b requires 0 <= b < |lists| => Decode(keep, replies[b], lists[b]).value)
  }

  lemma PassAnswers(p: Pass, replies: seq<Reply>) returns (answer: Question -> real)
    requires Plan(p, 0).Some? && DistinctCandidates(p.candidates)
    requires AllDecoded(p.config.keepScoring, replies, Plan(p, 0).value)
    ensures forall b :: 0 <= b < |replies| ==>
      Agree(replies[b], Asks(p.config.keepScoring, Plan(p, 0).value[b]), answer)
    ensures forall q :: q in QuestionList(p.config.keepScoring, p.candidates) ==> IsProbability(answer(q))
  {
    var keep, lists := p.config.keepScoring, Plan(p, 0).value;
    var questions, values := AllAsked(keep, lists), Values(keep, replies, lists);
    AskedExactlyOnce(p);
    var answers := AnswerMap(questions, values);
    answer := (q: Question) => if q in answers then answers[q] else 0.0;
    forall k | 0 <= k < |questions|
      ensures answer(questions[k]) == values[k]
    {
      AnswerMapHolds(questions, values, k);
    }
    forall b | 0 <= b < |replies|
      ensures Agree(replies[b], Asks(keep, lists[b]), answer)
    {
      RepliesAgree(keep, replies, lists, answer, b);
    }
  }

  /**
   Fail-closed agreement.  When every request of the plan was answered, there is one answer
   for each question: the value under its key in the one reply to the request that asked
   it.  The merged scores are exactly these answers, and `validateScores` accepts them.
   */
  lemma MergedScoresAreTheAnswers(p: Pass, replies: seq<Reply>) returns (answer: Question -> real)
    requires Plan(p, 0).Some? && DistinctCandidates(p.candidates)
    requires AllDecoded(p.config.keepScoring, replies, Plan(p, 0).value)
    ensures forall b :: 0 <= b < |replies| ==>
      Agree(replies[b], Asks(p.config.keepScoring, Plan(p, 0).value[b]), answer)
    ensures var scores := MergeAll(map[], DecodedParts(p.config.keepScoring, replies, Plan(p, 0).value));
      && scores == Table(p.config.keepScoring, answer, p.candidates)
      && ValidScores(p.candidates, scores)
  {
    var keep, lists := p.config.keepScoring, Plan(p, 0).value;
    answer := PassAnswers(p, replies);
    forall b | 0 <= b < |lists|
      ensures DecodedParts(keep, replies, lists)[b] == Table(keep, answer, lists[b])
    {
      DecodeAgrees(keep, replies[b], lists[b], answer);
    }
    assert DecodedParts(keep, replies, lists) == PartTables(keep, answer, lists);
    MergedIsTable(p, answer);
    TableIsValid(keep, answer, p.candidates);
  }
}
