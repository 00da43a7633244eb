/** The context that is sent, and how many requests are in flight. */
module Contexts {
  import opened Text
  import opened Transcript
  import opened Unicode
  import opened Scores
  import opened Batching
  import opened Merging
  import opened Client
  import Pool

  // ----- shrinking the context -----

  /** The first and the last runes of a text stand around the mark. */
  ghost predicate KeepsEnds(short: string, context: string) {
    exists head, tail ::
      && short == head + "\n[scoring context omitted]\n" + tail
      && head <= context && |tail| <= |context| && context[|context| - |tail|..] == tail
      && |Runes(head)| == |Runes(tail)| == |Runes(context)| / 4
  }

  /** A context of at least 80 runes keeps its first and last quarter; a shorter one goes altogether. */
  lemma ShortenedKeepsEnds(context: string)
    requires ValidUtf8(context)
    ensures if |Runes(context)| < 80 then Shortened(context) == "" else KeepsEnds(Shortened(context), context)
  {
    var runes := Runes(context);
    var n := |runes| / 4;
    if |runes| >= 80 {
      RunesRejoin(context);
      RunesAreRunes(context);
      Quarters(context, runes, n);
      EndsAround(context, Encode(runes[..n]), OMITTED, Encode(runes[|runes| - n..]));
    }
  }

  lemma Quarters(context: string, runes: seq<string>, n: nat)
    requires context == Encode(runes) && n <= |runes| && forall r :: r in runes ==> IsRune(r)
    ensures var head, tail := Encode(runes[..n]), Encode(runes[|runes| - n..]);
      && |head| <= |context| && context[..|head|] == head
      && |tail| <= |context| && context[|context| - |tail|..] == tail
      && |Runes(head)| == |Runes(tail)| == n
  {
    assert runes == runes[..n] + runes[n..] && runes == runes[..|runes| - n] + runes[|runes| - n..];
    EncodeConcat(runes[..n], runes[n..]);
    EncodeConcat(runes[..|runes| - n], runes[|runes| - n..]);
    RunesOfEncode(runes[..n]);
    RunesOfEncode(runes[|runes| - n..]);
  }

  lemma EndsAround(context: string, head: string, mark: string, tail: string)
    requires mark == OMITTED
    requires |head| <= |context| && context[..|head|] == head
    requires |tail| <= |context| && context[|context| - |tail|..] == tail
    requires |Runes(head)| == |Runes(tail)| == |Runes(context)| / 4
    ensures KeepsEnds(head + mark + tail, context)
  {
    assert head <= context;
  }

  /** Without candidates, the body takes at most half of both limits. */
  ghost predicate LeavesHalf(config: Config, wire: Wire, eval: Evaluation) {
    exists body, n ::
      && PassFor(config, wire, eval).body([]) == Some(body) && wire.countText(body) == Some(n)
      && 2 * |body| <= config.maxRequestBytes && 2 * n <= config.maxRequestTokens
  }

  lemma HalfLeaves(config: Config, wire: Wire, eval: Evaluation)
    ensures HalfFits(config, wire, eval) == Some(true) <==> LeavesHalf(config, wire, eval)
  {
    var body := PassFor(config, wire, eval).body([]);
    if HalfFits(config, wire, eval) == Some(true) {
      assert wire.countText(body.value) == Some(wire.countText(body.value).value);
    }
  }

  /** `context` shortened `k` times. */
  function ShortenedTimes(context: string, k: nat): string
    decreases k
  {
    if k == 0 then context else ShortenedTimes(Shortened(context), k - 1)
  }

  function Form(eval: Evaluation, k: nat): Evaluation {
    eval.(context := ShortenedTimes(eval.context, k))
  }

  lemma FormShift(eval: Evaluation, j: nat)
    ensures Form(eval.(context := Shortened(eval.context)), j) == Form(eval, j + 1)
  {
  }

  /** This form has a context that does not leave half of both limits. */
  ghost predicate TooLong(config: Config, wire: Wire, eval: Evaluation) {
    eval.context != "" && !LeavesHalf(config, wire, eval)
  }

  /**
   The context that is sent is the original one, shortened as often as needed and no more:
   it is empty or leaves half of both limits, and no earlier form of it did.
   */
  lemma {:induction false} FittedIsFirst(config: Config, wire: Wire, eval: Evaluation) returns (k: nat)
    requires Fitted(config, wire, eval).Some?
    ensures Fitted(config, wire, eval) == Some(Form(eval, k).context)
    ensures !TooLong(config, wire, Form(eval, k))
    ensures forall j: nat :: j < k ==> TooLong(config, wire, Form(eval, j))
    decreases |Runes(eval.context)|
  {
    HalfLeaves(config, wire, eval);
    assert Form(eval, 0) == eval;
    if eval.context != "" && HalfFits(config, wire, eval) == Some(false) {
      var next := eval.(context := Shortened(eval.context));
      ShortenedIsShorter(eval.context);
      var l := FittedIsFirst(config, wire, next);
      k := l + 1;
      FormShift(eval, l);
      forall j: nat | j < k
        ensures TooLong(config, wire, Form(eval, j))
      {
        if j > 0 {
          FormShift(eval, j - 1);
        }
      }
    } else {
      k := 0;
    }
  }

  /** The body without candidates cannot be encoded, or its tokens cannot be counted. */
  ghost predicate CannotBeMeasured(config: Config, wire: Wire, eval: Evaluation) {
    var body := PassFor(config, wire, eval).body([]);
    body == None || wire.countText(body.value) == None
  }

  lemma NotMeasured(config: Config, wire: Wire, eval: Evaluation)
    ensures HalfFits(config, wire, eval).None? <==> CannotBeMeasured(config, wire, eval)
  {
  }

  lemma FittedNext(config: Config, wire: Wire, eval: Evaluation)
    requires Fitted(config, wire, eval).None? && HalfFits(config, wire, eval).Some?
    ensures eval.context != "" && Fitted(config, wire, eval.(context := Shortened(eval.context))).None?
  {
  }

  /** The context shortened `k` times cannot be measured. */
  ghost predicate FailsAt(config: Config, wire: Wire, eval: Evaluation, k: nat) {
    CannotBeMeasured(config, wire, Form(eval, k))
  }

  lemma FailsHere(config: Config, wire: Wire, eval: Evaluation)
    requires HalfFits(config, wire, eval).None?
    ensures FailsAt(config, wire, eval, 0)
  {
    NotMeasured(config, wire, eval);
    assert Form(eval, 0) == eval;
  }

  lemma FailsLater(config: Config, wire: Wire, eval: Evaluation, next: Evaluation, k: nat)
    requires next == eval.(context := Shortened(eval.context)) && FailsAt(config, wire, next, k)
    ensures FailsAt(config, wire, eval, k + 1)
  {
    FormShift(eval, k);
  }

  /** There is no fitting context only when some form of it cannot be measured. */
  lemma {:induction false} NoneFittedNoneMeasured(config: Config, wire: Wire, eval: Evaluation) returns (k: nat)
    requires Fitted(config, wire, eval).None?
    ensures FailsAt(config, wire, eval, k)
    decreases |Runes(eval.context)|
  {
    if HalfFits(config, wire, eval).None? {
      k := 0;
      FailsHere(config, wire, eval);
    } else {
      FittedNext(config, wire, eval);
      ShortenedIsShorter(eval.context);
      var next := eval.(context := Shortened(eval.context));
      var l := NoneFittedNoneMeasured(config, wire, next);
      FailsLater(config, wire, eval, next, l);
      k := l + 1;
    }
  }

  // ----- requests in flight -----

  /** At every moment of every interleaving at most MaxConcurrent requests are in flight, and no more than there are. */
  lemma InFlightIsBounded(p: Pass, oracle: Pool.Oracle<Part>, trace: seq<Pool.State<Part>>, t: nat)
    requires Pool.IsExecution(oracle, Workers(p, |oracle|), trace) && t < |trace|
    ensures |Pool.InFlight(trace[t])| <= p.config.maxConcurrent
    ensures |Pool.InFlight(trace[t])| <= |oracle|
  {
    Pool.AlwaysSafe(oracle, Workers(p, |oracle|), trace, t);
  }

  /** The bound is used: there is a worker for every request, or as many as are allowed. */
  lemma WorkersAreUsed(p: Pass, requests: nat)
    ensures Workers(p, requests) == requests || Workers(p, requests) == p.config.maxConcurrent
  {
  }
}
