/** The requests of a plan together ask every question of the pass exactly once. */
module Asking {
  import opened Scores
  import opened Questions
  import opened Batching

  function LossQuestions(id: string, variants: seq<Variant>): (questions: seq<Question>)
    ensures |questions| == |variants|
  {
    seq(|variants|, j requires 0 <= j < |variants| => LossOf(id, variants[j].action))
  }

  /** What has to be asked about a candidate, wherever it is placed. */
  function QuestionsFor(keep: bool, c: Candidate): seq<Question> {
    if keep then [CallNeeded(c.id), ResultNeeded(c.id)]
    else if c.variants != [] then LossQuestions(c.id, c.variants)
    else [RelevanceOf(c.id), DetailOf(c.id)]
  }

  function QuestionList(keep: bool, candidates: seq<Candidate>): seq<Question> {
    if candidates == [] then []
    else
      var last := |candidates| - 1;
      QuestionList(keep, candidates[..last]) + QuestionsFor(keep, candidates[last])
  }

  /** All questions of the requests of a plan, request after request. */
  function AllAsked(keep: bool, lists: Lists): seq<Question> {
    if lists == [] then [] else QuestionList(keep, lists[0]) + AllAsked(keep, lists[1..])
  }

  lemma {:induction false} AsksAreQuestions(keep: bool, candidates: seq<Candidate>)
    ensures |Asks(keep, candidates)| == |QuestionList(keep, candidates)|
    ensures forall p :: 0 <= p < |Asks(keep, candidates)| ==>
      Asks(keep, candidates)[p].question == QuestionList(keep, candidates)[p]
  {
    if candidates != [] {
      var last := |candidates| - 1;
      AsksAreQuestions(keep, candidates[..last]);
      var asks, questions := AsksFor(keep, candidates[last], last), QuestionsFor(keep, candidates[last]);
      assert |asks| == |questions| && forall p :: 0 <= p < |asks| ==> asks[p].question == questions[p];
    }
  }

  lemma QuestionListSnoc(keep: bool, front: seq<Candidate>, c: Candidate)
    ensures QuestionList(keep, front + [c]) == QuestionList(keep, front) + QuestionsFor(keep, c)
  {
    assert (front + [c])[..|front|] == front;
  }

  lemma {:induction false} QuestionListConcat(keep: bool, a: seq<Candidate>, b: seq<Candidate>)
    ensures QuestionList(keep, a + b) == QuestionList(keep, a) + QuestionList(keep, b)
  {
    if b == [] {
      assert a + b == a;
    } else {
      var front, c := b[..|b| - 1], b[|b| - 1];
      assert b == front + [c] && a + b == (a + front) + [c];
      QuestionListConcat(keep, a, front);
      QuestionListSnoc(keep, a + front, c);
      QuestionListSnoc(keep, front, c);
    }
  }

  lemma {:induction false} AllAskedConcat(keep: bool, a: Lists, b: Lists)
    ensures AllAsked(keep, a + b) == AllAsked(keep, a) + AllAsked(keep, b)
  {
    if a == [] {
      assert a + b == b;
    } else {
      assert (a + b)[1..] == a[1..] + b;
      AllAskedConcat(keep, a[1..], b);
    }
  }

  lemma SingleQuestions(keep: bool, c: Candidate)
    ensures QuestionList(keep, [c]) == QuestionsFor(keep, c)
  {
    assert [c][..0] == [];
  }

  lemma OnePartAsks(part: Candidate, c: Candidate, v: Variant)
    requires PartOf(part, c.(variants := [v]))
    ensures AllAsked(false, [[part]]) == [LossOf(c.id, v.action)]
  {
    SingleQuestions(false, part);
    assert [[part]][1..] == [];
  }

  /** The parts of a split candidate ask its questions in its order. */
  lemma {:induction false} PartsAsk(parts: seq<Candidate>, c: Candidate, n: nat)
    requires n <= |parts| == |c.variants|
    requires forall j :: 0 <= j < |parts| ==> PartOf(parts[j], c.(variants := [c.variants[j]]))
    ensures AllAsked(false, Singles(parts[..n])) == LossQuestions(c.id, c.variants)[..n]
  {
    if n > 0 {
      PartsAsk(parts, c, n - 1);
      assert Singles(parts[..n]) == Singles(parts[..n - 1]) + [[parts[n - 1]]];
      AllAskedConcat(false, Singles(parts[..n - 1]), [[parts[n - 1]]]);
      OnePartAsks(parts[n - 1], c, c.variants[n - 1]);
    }
  }

  lemma SplitAsks(p: Pass, c: Candidate)
    requires SplitParts(p, c).Some?
    ensures AllAsked(p.config.keepScoring, Singles(SplitParts(p, c).value)) == QuestionsFor(p.config.keepScoring, c)
  {
    var parts := SplitParts(p, c).value;
    SplitIsExact(p, c);
    if p.config.keepScoring {
      SingleQuestions(true, parts[0]);
      assert AllAsked(true, Singles(parts)) == QuestionsFor(true, c);
    } else {
      PartsAsk(parts, c, |parts|);
      assert parts[..|parts|] == parts;
    }
  }

  lemma QuestionsSplit(keep: bool, all: seq<Candidate>, start: nat, end: nat)
    requires start <= end <= |all|
    ensures QuestionList(keep, all[start..]) == QuestionList(keep, all[start..end]) + QuestionList(keep, all[end..])
  {
    assert all[start..] == all[start..end] + all[end..];
    QuestionListConcat(keep, all[start..end], all[end..]);
  }

  /** The requests of the plan ask, in order, exactly the questions of the candidates. */
  lemma {:induction false} PlanAsksEverything(p: Pass, start: nat)
    requires start <= |p.candidates| && Plan(p, start).Some?
    ensures AllAsked(p.config.keepScoring, Plan(p, start).value)
      == QuestionList(p.config.keepScoring, p.candidates[start..])
    decreases |p.candidates| - start
  {
    if start < |p.candidates| {
      var keep, all := p.config.keepScoring, p.candidates;
      var end := EndOf(p, start, start);
      if end == start {
        PlanAsksEverything(p, start + 1);
        SplitAsks(p, all[start]);
        AllAskedConcat(keep, Singles(SplitParts(p, all[start]).value), Plan(p, start + 1).value);
        SingleQuestions(keep, all[start]);
        assert all[start..start + 1] == [all[start]];
        QuestionsSplit(keep, all, start, start + 1);
      } else {
        PlanAsksEverything(p, end);
        QuestionsSplit(keep, all, start, end);
      }
    }
  }

  // ----- no question is asked twice -----

  ghost predicate DistinctCandidates(candidates: seq<Candidate>) {
    && (forall i, j :: 0 <= i < j < |candidates| ==> candidates[i].id != candidates[j].id)
    && forall i :: 0 <= i < |candidates| ==> DistinctActions(candidates[i].variants)
  }

  ghost predicate NoneTwice(questions: seq<Question>) {
    forall p, q :: 0 <= p < q < |questions| ==> questions[p] != questions[q]
  }

  lemma QuestionsForOnce(keep: bool, c: Candidate)
    requires DistinctActions(c.variants)
    ensures NoneTwice(QuestionsFor(keep, c))
    ensures forall q :: q in QuestionsFor(keep, c) ==> q.id == c.id
  {
  }

  lemma {:induction false} QuestionsOnce(keep: bool, candidates: seq<Candidate>)
    requires DistinctCandidates(candidates)
    ensures NoneTwice(QuestionList(keep, candidates))
    ensures forall q :: q in QuestionList(keep, candidates) ==>
      exists i :: 0 <= i < |candidates| && candidates[i].id == q.id
  {
    if candidates != [] {
      var last := |candidates| - 1;
      var front, back := QuestionList(keep, candidates[..last]), QuestionsFor(keep, candidates[last]);
      QuestionsOnce(keep, candidates[..last]);
      QuestionsForOnce(keep, candidates[last]);
      forall q | q in front
        ensures q !in back
        ensures exists i :: 0 <= i < |candidates| && candidates[i].id == q.id
      {
        var i :| 0 <= i < |candidates[..last]| && candidates[..last][i].id == q.id;
        assert candidates[i].id == q.id;
      }
    }
  }

  /**
   Asked exactly once: the questions of all requests of a plan, strung together, are the
   questions of the candidates in order, and none of them occurs twice.
   */
  lemma AskedExactlyOnce(p: Pass)
    requires Plan(p, 0).Some? && DistinctCandidates(p.candidates)
    ensures AllAsked(p.config.keepScoring, Plan(p, 0).value) == QuestionList(p.config.keepScoring, p.candidates)
    ensures NoneTwice(QuestionList(p.config.keepScoring, p.candidates))
  {
    PlanAsksEverything(p, 0);
    assert p.candidates[0..] == p.candidates;
    QuestionsOnce(p.config.keepScoring, p.candidates);
  }
}
