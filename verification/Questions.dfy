/** The questions of one scoring request and the decoding of its answers (jev/client.go). */
module Questions {
  import opened Text
  import opened Transcript
  import opened Scores

  datatype Question =
    | CallNeeded(id: string)
    | ResultNeeded(id: string)
    | LossOf(id: string, action: string)
    | RelevanceOf(id: string)
    | DetailOf(id: string)

  /** One entry of the question map: the key it is sent under, and what it asks. */
  datatype Ask = Ask(key: string, question: Question)

  /** `lossKey` */
  function LossKey(i: nat, j: nat): string {
    "l" + Decimal(i) + "_" + Decimal(j)
  }

  function LossAsks(id: string, i: nat, variants: seq<Variant>): (asks: seq<Ask>)
    ensures |asks| == |variants|
  {
    seq(|variants|, j requires 0 <= j < |variants| => Ask(LossKey(i, j), LossOf(id, variants[j].action)))
  }

  /** What is asked about the candidate at position `i` of a request. */
  function AsksFor(keep: bool, c: Candidate, i: nat): (asks: seq<Ask>) {
    if keep then [Ask("r" + Decimal(i), CallNeeded(c.id)), Ask("d" + Decimal(i), ResultNeeded(c.id))]
    else if c.variants != [] then LossAsks(c.id, i, c.variants)
    else [Ask("r" + Decimal(i), RelevanceOf(c.id)), Ask("d" + Decimal(i), DetailOf(c.id))]
  }

  function Asks(keep: bool, candidates: seq<Candidate>): seq<Ask> {
    if candidates == [] then []
    else
      var last := |candidates| - 1;
      Asks(keep, candidates[..last]) + AsksFor(keep, candidates[last], last)
  }

  /** `questions[key] = question`, one after the other. */
  function QuestionMap(asks: seq<Ask>): map<string, Question> {
    if asks == [] then map[]
    else QuestionMap(asks[..|asks| - 1])[asks[|asks| - 1].key := asks[|asks| - 1].question]
  }

  // ----- no two questions of a request share a key -----

  ghost predicate KeyAt(key: string, i: nat) {
    key == "r" + Decimal(i) || key == "d" + Decimal(i) || exists j: nat :: key == LossKey(i, j)
  }

  lemma LossKeyInjective(i: nat, j: nat, k: nat, l: nat)
    requires LossKey(i, j) == LossKey(k, l)
    ensures i == k && j == l
  {
    var a, b := Decimal(i), Decimal(k);
    assert LossKey(i, j)[1..] == a + ['_'] + Decimal(j);
    assert LossKey(k, l)[1..] == b + ['_'] + Decimal(l);
    SeparatorSplits(a, Decimal(j), b, Decimal(l), '_');
    DecimalInjective(i, k);
    DecimalInjective(j, l);
  }

  lemma TaggedInjective(tag: string, i: nat, k: nat)
    requires tag + Decimal(i) == tag + Decimal(k)
    ensures i == k
  {
    assert (tag + Decimal(i))[|tag|..] == Decimal(i) && (tag + Decimal(k))[|tag|..] == Decimal(k);
    DecimalInjective(i, k);
  }

  lemma KeyAtOne(key: string, i: nat, k: nat)
    requires KeyAt(key, i) && KeyAt(key, k)
    ensures i == k
  {
    if key[0] == 'l' {
      var j: nat :| key == LossKey(i, j);
      var l: nat :| key == LossKey(k, l);
      LossKeyInjective(i, j, k, l);
    } else if key[0] == 'r' {
      TaggedInjective("r", i, k);
    } else {
      TaggedInjective("d", i, k);
    }
  }

  ghost predicate DistinctKeys(asks: seq<Ask>) {
    forall p, q :: 0 <= p < q < |asks| ==> asks[p].key != asks[q].key
  }

  lemma AsksForKeys(keep: bool, c: Candidate, i: nat)
    ensures forall p :: 0 <= p < |AsksFor(keep, c, i)| ==> KeyAt(AsksFor(keep, c, i)[p].key, i)
    ensures DistinctKeys(AsksFor(keep, c, i))
  {
    var asks := AsksFor(keep, c, i);
    if !keep && c.variants != [] {
      assert forall p :: 0 <= p < |asks| ==> asks[p].key == LossKey(i, p);
      forall p, q | 0 <= p < q < |asks|
        ensures asks[p].key != asks[q].key
      {
        if LossKey(i, p) == LossKey(i, q) {
          LossKeyInjective(i, p, i, q);
        }
      }
    } else {
      assert asks[0].key[0] == 'r' && asks[1].key[0] == 'd';
    }
  }

  lemma {:induction false} AsksKeys(keep: bool, candidates: seq<Candidate>)
    ensures forall a: Ask :: a in Asks(keep, candidates) ==> exists i: nat :: i < |candidates| && KeyAt(a.key, i)
    ensures DistinctKeys(Asks(keep, candidates))
  {
    if candidates != [] {
      var last := |candidates| - 1;
      var front, back := Asks(keep, candidates[..last]), AsksFor(keep, candidates[last], last);
      AsksKeys(keep, candidates[..last]);
      AsksForKeys(keep, candidates[last], last);
      KeysAcross(front, back, last);
      assert Asks(keep, candidates) == front + back;
      forall a: Ask | a in front + back
        ensures exists i: nat :: i < |candidates| && KeyAt(a.key, i)
      {
        if a in back {
          var p :| 0 <= p < |back| && back[p] == a;
          assert KeyAt(a.key, last);
        } else {
          var i: nat :| i < |candidates[..last]| && KeyAt(a.key, i);
        }
      }
    }
  }

  lemma KeysAcross(front: seq<Ask>, back: seq<Ask>, last: nat)
    requires DistinctKeys(front) && DistinctKeys(back)
    requires forall a: Ask :: a in front ==> exists i: nat :: i < last && KeyAt(a.key, i)
    requires forall p :: 0 <= p < |back| ==> KeyAt(back[p].key, last)
    ensures DistinctKeys(front + back)
  {
    forall p, q | 0 <= p < |front| && 0 <= q < |back|
      ensures front[p].key != back[q].key
    {
      assert front[p] in front;
      var i: nat :| i < last && KeyAt(front[p].key, i);
      if front[p].key == back[q].key {
        KeyAtOne(front[p].key, i, last);
      }
    }
  }

  lemma {:induction false} QuestionMapHolds(asks: seq<Ask>, p: nat)
    requires DistinctKeys(asks) && p < |asks|
    ensures asks[p].key in QuestionMap(asks) && QuestionMap(asks)[asks[p].key] == asks[p].question
  {
    if p < |asks| - 1 {
      QuestionMapHolds(asks[..|asks| - 1], p);
    }
  }

  /** Every question of a request can be found under its own key. */
  lemma EachAskedUnderItsKey(keep: bool, candidates: seq<Candidate>, p: nat)
    requires p < |Asks(keep, candidates)|
    ensures var a := Asks(keep, candidates)[p];
      var questions := QuestionMap(Asks(keep, candidates));
      a.key in questions && questions[a.key] == a.question
  {
    AsksKeys(keep, candidates);
    QuestionMapHolds(Asks(keep, candidates), p);
  }

  // ----- decoding -----

  datatype Answer = Answer(kind: string, noul: Option<real>)

  /** `probability`: the value of a well-formed answer in [0, 1]. */
  function Probability(answers: map<string, Answer>, key: string): (p: Option<real>)
    ensures p.Some? ==> IsProbability(p.value)
  {
    if key !in answers || answers[key].kind != "noul" || answers[key].noul.None? then None
    else if !IsProbability(answers[key].noul.value) then None
    else answers[key].noul
  }

  function DecodeLosses(answers: map<string, Answer>, i: nat, variants: seq<Variant>, n: nat): Option<map<string, real>>
    requires n <= |variants|
  {
    if n == 0 then Some(map[])
    else
      var losses := DecodeLosses(answers, i, variants, n - 1);
      var p := Probability(answers, LossKey(i, n - 1));
      if losses.None? || p.None? then None else Some(losses.value[variants[n - 1].action := p.value])
  }

  function DecodeScore(keep: bool, answers: map<string, Answer>, c: Candidate, i: nat): Option<Score> {
    if !keep && c.variants != [] then
      var losses := DecodeLosses(answers, i, c.variants, |c.variants|);
      if losses.None? then None else Some(Score(None, 0.0, 0.0, losses))
    else
      var r, d := Probability(answers, "r" + Decimal(i)), Probability(answers, "d" + Decimal(i));
      if r.None? || d.None? then None
      else if keep then Some(Score(Some(KeepScore(r.value, d.value)), 0.0, 0.0, None))
      else Some(Score(None, r.value, d.value, None))
  }

  /** The part of `send` after the response was parsed; None stands for its errors. */
  function Decode(keep: bool, answers: map<string, Answer>, candidates: seq<Candidate>): Option<map<string, Score>> {
    if candidates == [] then Some(map[])
    else
      var last := |candidates| - 1;
      var scores := Decode(keep, answers, candidates[..last]);
      var score := DecodeScore(keep, answers, candidates[last], last);
      if scores.None? || score.None? then None else Some(scores.value[candidates[last].id := score.value])
  }

  method DecodeLossAnswers(answers: map<string, Answer>, i: nat, variants: seq<Variant>)
    returns (losses: Option<map<string, real>>)
    ensures losses == DecodeLosses(answers, i, variants, |variants|)
  {
    var loss: map<string, real> := map[];
    for j := 0 to |variants|
      invariant DecodeLosses(answers, i, variants, j) == Some(loss)
    {
      var p := Probability(answers, LossKey(i, j));
      if p.None? {
        DecodeLossesFails(answers, i, variants, j + 1, |variants|);
        return None;
      }
      loss := loss[variants[j].action := p.value];
    }
    losses := Some(loss);
  }

  lemma {:induction false} DecodeLossesFails(answers: map<string, Answer>, i: nat, variants: seq<Variant>, j: nat,
                                             n: nat)
    requires j <= n <= |variants| && DecodeLosses(answers, i, variants, j).None?
    ensures DecodeLosses(answers, i, variants, n).None?
  {
    if j < n {
      DecodeLossesFails(answers, i, variants, j, n - 1);
    }
  }

  lemma {:induction false} DecodeFails(keep: bool, answers: map<string, Answer>, candidates: seq<Candidate>, i: nat,
                                       n: nat)
    requires i <= n <= |candidates| && Decode(keep, answers, candidates[..i]).None?
    ensures Decode(keep, answers, candidates[..n]).None?
  {
    if i < n {
      DecodeFails(keep, answers, candidates, i, n - 1);
      assert candidates[..n][..n - 1] == candidates[..n - 1];
    }
  }

  /** The decoding loop of `send`. */
  method DecodeAnswers(keep: bool, answers: map<string, Answer>, candidates: seq<Candidate>)
    returns (part: Option<map<string, Score>>)
    ensures part == Decode(keep, answers, candidates)
  {
    var scores: map<string, Score> := map[];
    assert candidates[..|candidates|] == candidates;
    for i := 0 to |candidates|
      invariant Decode(keep, answers, candidates[..i]) == Some(scores)
    {
      assert candidates[..i + 1][..i] == candidates[..i];
      var score := DecodeOne(keep, answers, candidates[i], i);
      if score.None? {
        DecodeFails(keep, answers, candidates, i + 1, |candidates|);
        return None;
      }
      scores := scores[candidates[i].id := score.value];
    }
    part := Some(scores);
  }

  method DecodeOne(keep: bool, answers: map<string, Answer>, c: Candidate, i: nat) returns (score: Option<Score>)
    ensures score == DecodeScore(keep, answers, c, i)
  {
    if !keep && c.variants != [] {
      var losses := DecodeLossAnswers(answers, i, c.variants);
      return if losses.None? then None else Some(Score(None, 0.0, 0.0, losses));
    }
    var r := Probability(answers, "r" + Decimal(i));
    if r.None? {
      return None;
    }
    var d := Probability(answers, "d" + Decimal(i));
    if d.None? {
      return None;
    }
    score := Some(if keep then Score(Some(KeepScore(r.value, d.value)), 0.0, 0.0, None)
                  else Score(None, r.value, d.value, None));
  }

  // ----- the meaning of a decoded part: one answer for each question -----

  function LossesBy(answer: Question -> real, id: string, variants: seq<Variant>): map<string, real> {
    if variants == [] then map[]
    else LossesBy(answer, id, variants[..|variants| - 1])
      [variants[|variants| - 1].action := answer(LossOf(id, variants[|variants| - 1].action))]
  }

  /** The score of a candidate when every question has one answer. */
  function ScoreBy(keep: bool, answer: Question -> real, c: Candidate): Score {
    if keep then Score(Some(KeepScore(answer(CallNeeded(c.id)), answer(ResultNeeded(c.id)))), 0.0, 0.0, None)
    else if c.variants != [] then Score(None, 0.0, 0.0, Some(LossesBy(answer, c.id, c.variants)))
    else Score(None, answer(RelevanceOf(c.id)), answer(DetailOf(c.id)), None)
  }

  function Table(keep: bool, answer: Question -> real, candidates: seq<Candidate>): map<string, Score> {
    if candidates == [] then map[]
    else
      var last := candidates[|candidates| - 1];
      Table(keep, answer, candidates[..|candidates| - 1])[last.id := ScoreBy(keep, answer, last)]
  }

  /** The answers to a request are well formed and agree with `answer`. */
  ghost predicate Agree(answers: map<string, Answer>, asks: seq<Ask>, answer: Question -> real) {
    forall p :: 0 <= p < |asks| ==> Probability(answers, asks[p].key) == Some(answer(asks[p].question))
  }

  lemma {:induction false} LossesAgree(answers: map<string, Answer>, c: Candidate, i: nat, answer: Question -> real,
                                       n: nat)
    requires c.variants != [] && n <= |c.variants| && Agree(answers, LossAsks(c.id, i, c.variants), answer)
    ensures DecodeLosses(answers, i, c.variants, n) == Some(LossesBy(answer, c.id, c.variants[..n]))
  {
    if n > 0 {
      LossesAgree(answers, c, i, answer, n - 1);
      assert c.variants[..n][..n - 1] == c.variants[..n - 1];
      assert LossAsks(c.id, i, c.variants)[n - 1].key == LossKey(i, n - 1);
    }
  }

  lemma ScoreAgrees(keep: bool, answers: map<string, Answer>, c: Candidate, i: nat, answer: Question -> real)
    requires Agree(answers, AsksFor(keep, c, i), answer)
    ensures DecodeScore(keep, answers, c, i) == Some(ScoreBy(keep, answer, c))
  {
    var asks := AsksFor(keep, c, i);
    if !keep && c.variants != [] {
      LossesAgree(answers, c, i, answer, |c.variants|);
      assert c.variants[..|c.variants|] == c.variants;
    } else {
      assert Probability(answers, asks[0].key) == Some(answer(asks[0].question));
      assert Probability(answers, asks[1].key) == Some(answer(asks[1].question));
    }
  }

  /** A decoded part reports, for each candidate, the answers to its own questions. */
  lemma {:induction false} DecodeAgrees(keep: bool, answers: map<string, Answer>, candidates: seq<Candidate>,
                                        answer: Question -> real)
    requires Agree(answers, Asks(keep, candidates), answer)
    ensures Decode(keep, answers, candidates) == Some(Table(keep, answer, candidates))
  {
    if candidates != [] {
      var last := |candidates| - 1;
      var front, back := Asks(keep, candidates[..last]), AsksFor(keep, candidates[last], last);
      assert Asks(keep, candidates) == front + back;
      assert forall p :: 0 <= p < |front| ==> front[p] == (front + back)[p];
      assert forall p :: 0 <= p < |back| ==> back[p] == (front + back)[|front| + p];
      DecodeAgrees(keep, answers, candidates[..last], answer);
      ScoreAgrees(keep, answers, candidates[last], last, answer);
    }
  }

  lemma {:induction false} LossesNeedAll(answers: map<string, Answer>, i: nat, variants: seq<Variant>, n: nat)
    requires n <= |variants| && DecodeLosses(answers, i, variants, n).Some?
    ensures forall j :: 0 <= j < n ==> Probability(answers, LossKey(i, j)).Some?
  {
    if n > 0 {
      LossesNeedAll(answers, i, variants, n - 1);
    }
  }

  /** Decoding succeeds only when every question was answered. */
  lemma {:induction false} DecodeNeedsAll(keep: bool, answers: map<string, Answer>, candidates: seq<Candidate>)
    requires Decode(keep, answers, candidates).Some?
    ensures forall p :: 0 <= p < |Asks(keep, candidates)| ==> Probability(answers, Asks(keep, candidates)[p].key).Some?
  {
    if candidates != [] {
      var last := |candidates| - 1;
      DecodeNeedsAll(keep, answers, candidates[..last]);
      var c := candidates[last];
      if !keep && c.variants != [] {
        LossesNeedAll(answers, last, c.variants, |c.variants|);
      }
      assert forall p :: 0 <= p < |AsksFor(keep, c, last)| ==>
        Probability(answers, AsksFor(keep, c, last)[p].key).Some?;
    }
  }
}
