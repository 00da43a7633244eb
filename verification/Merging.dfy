/** The merge of the scored parts (jev/client.go) and what the merged map says. */
module Merging {
  import opened Transcript
  import opened Scores
  import opened Questions
  import opened Batching
  import opened Asking

  type Part = map<string, Score>

  /** A later loss map extends an earlier one; otherwise the later score replaces the earlier. */
  function MergeScore(scores: Part, id: string, s: Score): Score {
    if id in scores && scores[id].loss.Some? && s.loss.Some?
    then scores[id].(loss := Some(scores[id].loss.value + s.loss.value))
    else s
  }

  function MergePart(scores: Part, part: Part): Part {
    scores + map id | id in part :: MergeScore(scores, id, part[id])
  }

  /** The parts merged one after the other, in order. */
  function MergeAll(scores: Part, parts: seq<Part>): Part
    decreases parts
  {
    if parts == [] then scores else MergeAll(MergePart(scores, parts[0]), parts[1..])
  }

  // ----- the code -----

  /** The inner loop visits the ids of a part in any order. */
  method MergeOne(scores: Part, part: Part) returns (merged: Part)
    ensures merged == MergePart(scores, part)
  {
    merged := scores;
    var remaining := part.Keys;
    while remaining != {}
      invariant remaining <= part.Keys
      invariant merged == scores + map id | id in part.Keys - remaining :: MergeScore(scores, id, part[id])
      decreases remaining
    {
      var id :| id in remaining;
      assert id in merged <==> id in scores;
      merged := merged[id := MergeScore(merged, id, part[id])];
      remaining := remaining - {id};
    }
    assert part.Keys - {} == part.Keys;
  }

  method MergeParts(parts: seq<Part>) returns (scores: Part)
    ensures scores == MergeAll(map[], parts)
  {
    scores := map[];
    for b := 0 to |parts|
      invariant MergeAll(scores, parts[b..]) == MergeAll(map[], parts)
    {
      assert parts[b..][1..] == parts[b + 1..];
      scores := MergeOne(scores, parts[b]);
    }
  }

  // ----- the merged map is the table of answers -----

  /** One decoded part for each request. */
  function PartTables(keep: bool, answer: Question -> real, lists: Lists): (parts: seq<Part>)
    ensures |parts| == |lists|
  {
    seq(|lists|, b requires 0 <= b < |lists| => Table(keep, answer, lists[b]))
  }

  lemma TableSnoc(keep: bool, answer: Question -> real, front: seq<Candidate>, c: Candidate)
    ensures Table(keep, answer, front + [c]) == Table(keep, answer, front)[c.id := ScoreBy(keep, answer, c)]
  {
    assert (front + [c])[..|front|] == front;
  }

  lemma {:induction false} TableConcat(keep: bool, answer: Question -> real, a: seq<Candidate>, b: seq<Candidate>)
    ensures Table(keep, answer, a + b) == Table(keep, answer, a) + Table(keep, answer, b)
  {
    if b == [] {
      assert a + b == a;
    } else {
      var front, c := b[..|b| - 1], b[|b| - 1];
      assert b == front + [c] && a + b == (a + front) + [c];
      TableConcat(keep, answer, a, front);
      TableSnoc(keep, answer, a + front, c);
      TableSnoc(keep, answer, front, c);
    }
  }

  lemma {:induction false} TableKeys(keep: bool, answer: Question -> real, candidates: seq<Candidate>)
    ensures forall id ::
      id in Table(keep, answer, candidates) <==> exists i :: 0 <= i < |candidates| && candidates[i].id == id
  {
    if candidates != [] {
      var last := |candidates| - 1;
      TableKeys(keep, answer, candidates[..last]);
      forall id
        ensures id in Table(keep, answer, candidates) <==> exists i :: 0 <= i < |candidates| && candidates[i].id == id
      {
        if id in Table(keep, answer, candidates[..last]) {
          var i :| 0 <= i < last && candidates[..last][i].id == id;
          assert candidates[i].id == id;
        } else if id in Table(keep, answer, candidates) {
          assert candidates[last].id == id;
        }
        if i :| 0 <= i < |candidates| && candidates[i].id == id {
          assert i < last ==> candidates[..last][i].id == id;
        }
      }
    }
  }

  lemma {:induction false} MergeAllConcat(scores: Part, a: seq<Part>, b: seq<Part>)
    ensures MergeAll(scores, a + b) == MergeAll(MergeAll(scores, a), b)
    decreases a
  {
    if a == [] {
      assert a + b == b;
    } else {
      assert (a + b)[1..] == a[1..] + b;
      MergeAllConcat(MergePart(scores, a[0]), a[1..], b);
    }
  }

  lemma MergeNew(scores: Part, part: Part)
    requires scores.Keys !! part.Keys
    ensures MergePart(scores, part) == scores + part
  {
  }

  lemma SingleTable(keep: bool, answer: Question -> real, c: Candidate)
    ensures Table(keep, answer, [c]) == map[c.id := ScoreBy(keep, answer, c)]
  {
    assert [c][..0] == [];
  }

  lemma LossesBySnoc(answer: Question -> real, id: string, variants: seq<Variant>, n: nat)
    requires n < |variants|
    ensures LossesBy(answer, id, variants[..n + 1])
      == LossesBy(answer, id, variants[..n]) + LossesBy(answer, id, [variants[n]])
  {
    assert variants[..n + 1][..n] == variants[..n];
    assert [variants[n]][..0] == [];
  }

  lemma PartTablesConcat(keep: bool, answer: Question -> real, a: Lists, b: Lists)
    ensures PartTables(keep, answer, a + b) == PartTables(keep, answer, a) + PartTables(keep, answer, b)
  {
  }

  lemma MergeSingle(scores: Part, id: string, s: Score)
    ensures MergeAll(scores, [map[id := s]]) == scores[id := MergeScore(scores, id, s)]
  {
    assert [map[id := s]][1..] == [];
    assert MergePart(scores, map[id := s]) == scores[id := MergeScore(scores, id, s)];
  }

  function LossScore(losses: map<string, real>): Score {
    Score(None, 0.0, 0.0, Some(losses))
  }

  lemma PartScore(answer: Question -> real, part: Candidate, c: Candidate, v: Variant)
    requires PartOf(part, c.(variants := [v]))
    ensures PartTables(false, answer, [[part]]) == [map[c.id := LossScore(LossesBy(answer, c.id, [v]))]]
  {
    SingleTable(false, answer, part);
  }

  lemma MergeLosses(scores: Part, id: string, a: map<string, real>, b: map<string, real>)
    ensures MergeAll(scores[id := LossScore(a)], [map[id := LossScore(b)]]) == scores[id := LossScore(a + b)]
  {
    MergeSingle(scores[id := LossScore(a)], id, LossScore(b));
  }

  lemma PartTablesSnoc(answer: Question -> real, parts: seq<Candidate>, n: nat)
    requires n < |parts|
    ensures PartTables(false, answer, Singles(parts[..n + 1]))
      == PartTables(false, answer, Singles(parts[..n])) + PartTables(false, answer, [[parts[n]]])
  {
    assert Singles(parts[..n + 1]) == Singles(parts[..n]) + [[parts[n]]];
  }

  /** Merging the parts of a split candidate collects its losses one by one. */
  lemma {:induction false} PartsMerge(scores: Part, answer: Question -> real, parts: seq<Candidate>, c: Candidate,
                                      n: nat)
    requires 0 < n <= |parts| == |c.variants| && c.id !in scores
    requires forall j :: 0 <= j < |parts| ==> PartOf(parts[j], c.(variants := [c.variants[j]]))
    ensures MergeAll(scores, PartTables(false, answer, Singles(parts[..n])))
      == scores[c.id := LossScore(LossesBy(answer, c.id, c.variants[..n]))]
  {
    var losses := LossesBy(answer, c.id, [c.variants[n - 1]]);
    PartScore(answer, parts[n - 1], c, c.variants[n - 1]);
    if n == 1 {
      assert Singles(parts[..1]) == [[parts[0]]] && c.variants[..1] == [c.variants[0]];
      MergeSingle(scores, c.id, LossScore(losses));
    } else {
      PartsMerge(scores, answer, parts, c, n - 1);
      PartTablesSnoc(answer, parts, n - 1);
      MergeAllConcat(scores, PartTables(false, answer, Singles(parts[..n - 1])), [map[c.id := LossScore(losses)]]);
      MergeLosses(scores, c.id, LossesBy(answer, c.id, c.variants[..n - 1]), losses);
      LossesBySnoc(answer, c.id, c.variants, n - 1);
    }
  }

  lemma SplitMerges(p: Pass, scores: Part, answer: Question -> real, c: Candidate)
    requires SplitParts(p, c).Some? && c.id !in scores
    ensures MergeAll(scores, PartTables(p.config.keepScoring, answer, Singles(SplitParts(p, c).value)))
      == scores[c.id := ScoreBy(p.config.keepScoring, answer, c)]
  {
    var parts := SplitParts(p, c).value;
    SplitIsExact(p, c);
    if p.config.keepScoring {
      SingleTable(true, answer, parts[0]);
      assert PartTables(true, answer, Singles(parts)) == [map[c.id := ScoreBy(true, answer, c)]];
      MergeSingle(scores, c.id, ScoreBy(true, answer, c));
    } else {
      PartsMerge(scores, answer, parts, c, |parts|);
      assert parts[..|parts|] == parts && c.variants[..|parts|] == c.variants;
    }
  }

  ghost predicate DistinctFrom(candidates: seq<Candidate>, start: nat, scores: Part) {
    && (forall i, j :: 0 <= i < j < |candidates| ==> candidates[i].id != candidates[j].id)
    && forall i :: start <= i < |candidates| ==> candidates[i].id !in scores
  }

  lemma MergeBatch(scores: Part, keep: bool, answer: Question -> real, candidates: seq<Candidate>, start: nat, end: nat)
    requires start <= end <= |candidates| && DistinctFrom(candidates, start, scores)
    ensures MergePart(scores, Table(keep, answer, candidates[start..end]))
      == scores + Table(keep, answer, candidates[start..end])
    ensures DistinctFrom(candidates, end, scores + Table(keep, answer, candidates[start..end]))
  {
    var part := candidates[start..end];
    TableKeys(keep, answer, part);
    forall id | id in Table(keep, answer, part)
      ensures id !in scores && forall j :: end <= j < |candidates| ==> candidates[j].id != id
    {
      var i :| 0 <= i < |part| && part[i].id == id;
      assert candidates[start + i].id == id;
    }
    MergeNew(scores, Table(keep, answer, part));
  }

  /** The turn of the plan from `start` to `next` merges the table of the candidates between. */
  ghost predicate TurnMerges(p: Pass, scores: Part, answer: Question -> real, start: nat, next: nat) {
    && start < next <= |p.candidates| && Plan(p, start).Some? && Plan(p, next).Some?
    && var after := scores + Table(p.config.keepScoring, answer, p.candidates[start..next]);
       && DistinctFrom(p.candidates, next, after)
       && MergeAll(scores, PartTables(p.config.keepScoring, answer, Plan(p, start).value))
          == MergeAll(after, PartTables(p.config.keepScoring, answer, Plan(p, next).value))
  }

  lemma BatchMerges(p: Pass, scores: Part, answer: Question -> real, start: nat)
    requires start < |p.candidates| && Plan(p, start).Some? && DistinctFrom(p.candidates, start, scores)
    requires EndOf(p, start, start) > start
    ensures TurnMerges(p, scores, answer, start, EndOf(p, start, start))
  {
    var keep, all, end := p.config.keepScoring, p.candidates, EndOf(p, start, start);
    MergeBatch(scores, keep, answer, all, start, end);
    PartTablesConcat(keep, answer, [all[start..end]], Plan(p, end).value);
    var parts := PartTables(keep, answer, Plan(p, start).value);
    assert parts[0] == Table(keep, answer, all[start..end]);
    assert parts[1..] == PartTables(keep, answer, Plan(p, end).value);
  }

  lemma SingleAdds(scores: Part, keep: bool, answer: Question -> real, all: seq<Candidate>, start: nat)
    requires start < |all| && DistinctFrom(all, start, scores)
    ensures scores + Table(keep, answer, all[start..start + 1])
      == scores[all[start].id := ScoreBy(keep, answer, all[start])]
    ensures DistinctFrom(all, start + 1, scores + Table(keep, answer, all[start..start + 1]))
  {
    assert all[start..start + 1] == [all[start]];
    SingleTable(keep, answer, all[start]);
  }

  lemma SplitTurnMerges(p: Pass, scores: Part, answer: Question -> real, start: nat)
    requires start < |p.candidates| && Plan(p, start).Some? && DistinctFrom(p.candidates, start, scores)
    requires EndOf(p, start, start) == start
    ensures TurnMerges(p, scores, answer, start, start + 1)
  {
    PlanMergesSplit(p, scores, answer, start);
    SingleAdds(scores, p.config.keepScoring, answer, p.candidates, start);
  }

  lemma AnyTurnMerges(p: Pass, scores: Part, answer: Question -> real, start: nat) returns (next: nat)
    requires start < |p.candidates| && Plan(p, start).Some? && DistinctFrom(p.candidates, start, scores)
    ensures TurnMerges(p, scores, answer, start, next)
  {
    next := EndOf(p, start, start);
    if next > start {
      BatchMerges(p, scores, answer, start);
    } else {
      next := start + 1;
      SplitTurnMerges(p, scores, answer, start);
    }
  }

  /** From any point of the plan on, merging adds the table of the remaining candidates. */
  lemma {:induction false} PlanMerges(p: Pass, scores: Part, answer: Question -> real, start: nat)
    requires start <= |p.candidates| && Plan(p, start).Some? && DistinctFrom(p.candidates, start, scores)
    ensures MergeAll(scores, PartTables(p.config.keepScoring, answer, Plan(p, start).value))
      == scores + Table(p.config.keepScoring, answer, p.candidates[start..])
    decreases |p.candidates| - start
  {
    var keep, all := p.config.keepScoring, p.candidates;
    if start == |all| {
      assert PartTables(keep, answer, []) == [];
    } else {
      var next := AnyTurnMerges(p, scores, answer, start);
      PlanMerges(p, scores + Table(keep, answer, all[start..next]), answer, next);
      TableStep(keep, answer, all, start, next, scores);
    }
  }

  lemma TableStep(keep: bool, answer: Question -> real, all: seq<Candidate>, start: nat, end: nat, scores: Part)
    requires start <= end <= |all|
    ensures scores + Table(keep, answer, all[start..end]) + Table(keep, answer, all[end..])
      == scores + Table(keep, answer, all[start..])
  {
    assert all[start..] == all[start..end] + all[end..];
    TableConcat(keep, answer, all[start..end], all[end..]);
  }

  lemma PlanMergesSplit(p: Pass, scores: Part, answer: Question -> real, start: nat)
    requires start < |p.candidates| && Plan(p, start).Some? && DistinctFrom(p.candidates, start, scores)
    requires EndOf(p, start, start) == start
    ensures MergeAll(scores, PartTables(p.config.keepScoring, answer, Plan(p, start).value))
      == MergeAll(scores[p.candidates[start].id := ScoreBy(p.config.keepScoring, answer, p.candidates[start])],
                  PartTables(p.config.keepScoring, answer, Plan(p, start + 1).value))
  {
    var keep, c := p.config.keepScoring, p.candidates[start];
    var parts := SplitParts(p, c).value;
    SplitMerges(p, scores, answer, c);
    PartTablesConcat(keep, answer, Singles(parts), Plan(p, start + 1).value);
    MergeAllConcat(scores, PartTables(keep, answer, Singles(parts)),
                   PartTables(keep, answer, Plan(p, start + 1).value));
  }

  /** The merged result of a pass is the table with one answer for each question. */
  lemma MergedIsTable(p: Pass, answer: Question -> real)
    requires Plan(p, 0).Some? && DistinctCandidates(p.candidates)
    ensures MergeAll(map[], PartTables(p.config.keepScoring, answer, Plan(p, 0).value))
      == Table(p.config.keepScoring, answer, p.candidates)
  {
    PlanMerges(p, map[], answer, 0);
    assert p.candidates[0..] == p.candidates;
  }
}
