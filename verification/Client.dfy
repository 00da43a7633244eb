/** `ScoreWithStats` of jev/client.go: context shrinking, planning, the pool and the merge. */
module Client {
  import opened Text
  import opened Transcript
  import opened Scores
  import opened Questions
  import opened Batching
  import opened Asking
  import opened Merging
  import opened Agreement
  import opened Pool

  /** The JSON encoding of a request body and the token counter; both can fail. */
  datatype Wire = Wire(
    encode: (Evaluation, map<string, Question>) -> Option<string>,
    countText: string -> Option<nat>)

  /** Under KeepScoring the proposals are not sent. */
  function WireCandidates(keep: bool, candidates: seq<Candidate>): seq<Candidate> {
    if keep then seq(|candidates|, i requires 0 <= i < |candidates| => candidates[i].(variants := [])) else candidates
  }

  /** `body`: the state and the questions of one request. */
  function Body(keep: bool, wire: Wire, eval: Evaluation, candidates: seq<Candidate>): Option<string> {
    wire.encode(eval.(candidates := WireCandidates(keep, candidates)), QuestionMap(Asks(keep, candidates)))
  }

  function PassFor(config: Config, wire: Wire, eval: Evaluation): (p: Pass)
    ensures p.config == config && p.candidates == eval.candidates
  {
    Pass(config, candidates => Body(config.keepScoring, wire, eval, candidates), wire.countText, eval.candidates)
  }

  // ----- shrinking the context -----

  const OMITTED := "\n[scoring context omitted]\n"

  function Around(runes: seq<string>, n: nat, mark: string): string
    requires n <= |runes|
  {
    Encode(runes[..n]) + mark + Encode(runes[|runes| - n..])
  }

  /** The first and the last quarter of the runes around the mark; nothing when there are fewer than 80. */
  function Shortened(context: string): string {
    var runes := Runes(context);
    var n := |runes| / 4;
    if n == 0 || |runes| < 80 then ""
    else Around(runes, n, OMITTED)
  }

  lemma RunesAround(head: seq<string>, mark: string, tail: seq<string>)
    requires Ascii(mark)
    requires forall r :: r in head || r in tail ==> IsRune(r)
    ensures |Runes(Encode(head) + mark + Encode(tail))| == |head| + |mark| + |tail|
  {
    RunesOfAscii(mark);
    RunesAreRunes(mark);
    EncodeConcat(head, Runes(mark));
    EncodeConcat(head + Runes(mark), tail);
    RunesOfEncode(head + Runes(mark) + tail);
  }

  lemma OmittedIsAscii(mark: string)
    requires mark == OMITTED
    ensures Ascii(mark) && |mark| == 27
  {
  }

  lemma ShortenedRunes(context: string, mark: string)
    requires |Runes(context)| >= 80 && mark == OMITTED
    ensures |Runes(Around(Runes(context), |Runes(context)| / 4, mark))| == 2 * (|Runes(context)| / 4) + 27
  {
    var runes := Runes(context);
    var n := |runes| / 4;
    RunesAreRunes(context);
    OmittedIsAscii(mark);
    RunesAround(runes[..n], mark, runes[|runes| - n..]);
  }

  /** Every round lowers the number of runes, although the mark adds 27. */
  lemma ShortenedIsShorter(context: string)
    requires context != ""
    ensures |Runes(Shortened(context))| < |Runes(context)|
  {
    if |Runes(context)| >= 80 {
      ShortenedRunes(context, OMITTED);
    } else {
      assert Shortened(context) == "";
    }
  }

  /** The candidate-free body fits half of both limits; None when it cannot be measured. */
  function HalfFits(config: Config, wire: Wire, eval: Evaluation): Option<bool> {
    match Body(config.keepScoring, wire, eval, [])
    case None => None
    case Some(body) =>
      match wire.countText(body)
      case None => None
      case Some(n) => Some(|body| <= config.maxRequestBytes / 2 && n <= config.maxRequestTokens / 2)
  }

  /** The context that is sent: shortened until it fits or is empty. */
  function Fitted(config: Config, wire: Wire, eval: Evaluation): (context: Option<string>)
    ensures context.Some? && context.value != "" ==>
      HalfFits(config, wire, eval.(context := context.value)) == Some(true)
    decreases |Runes(eval.context)|
  {
    if eval.context == "" then Some("")
    else
      match HalfFits(config, wire, eval)
      case None => None
      case Some(fits) =>
        ShortenedIsShorter(eval.context);
        if fits then Some(eval.context) else Fitted(config, wire, eval.(context := Shortened(eval.context)))
  }

  /** The shrinking loop ends for every context. */
  method FitContext(config: Config, wire: Wire, eval: Evaluation) returns (context: Option<string>)
    ensures context == Fitted(config, wire, eval)
  {
    var current := eval;
    while |current.context| > 0
      invariant Fitted(config, wire, current) == Fitted(config, wire, eval)
      decreases |Runes(current.context)|
    {
      var fits := HalfFits(config, wire, current);
      if fits.None? {
        return None;
      }
      if fits.value {
        break;
      }
      ShortenedIsShorter(current.context);
      current := current.(context := Shortened(current.context));
    }
    context := Some(current.context);
  }

  // ----- running the pool -----

  type Schedule = (Oracle<Part>, State<Part>) -> Action

  /** A schedule picks a possible step in every reachable state; which one, is up to it. */
  ghost predicate IsSchedule(schedule: Schedule) {
    forall oracle: Oracle<Part>, s: State<Part> ::
      Inv(oracle, s) && (|oracle| > 0 ==> |s.workers| > 0) && !Done(s) ==> Enabled(oracle, s, schedule(oracle, s))
  }

  /** Where a schedule takes the pool. */
  ghost function Ran(oracle: Oracle<Part>, s: State<Part>, schedule: Schedule): State<Part>
    requires IsSchedule(schedule) && Inv(oracle, s) && (|oracle| > 0 ==> |s.workers| > 0)
    decreases Measure(oracle, s)
  {
    if Done(s) then s
    else
      var a := schedule(oracle, s);
      StepKeeps(oracle, s, a);
      StepLowers(oracle, s, a);
      Ran(oracle, Do(oracle, s, a), schedule)
  }

  ghost function RanFrom(oracle: Oracle<Part>, workers: nat, schedule: Schedule): State<Part>
    requires IsSchedule(schedule) && (|oracle| > 0 ==> workers > 0)
  {
    InitInv(oracle, workers);
    Ran(oracle, Init(oracle, workers), schedule)
  }

  method RunPool(oracle: Oracle<Part>, workers: nat, schedule: Schedule) returns (s: State<Part>)
    requires IsSchedule(schedule) && (|oracle| > 0 ==> workers > 0)
    ensures exists trace :: IsExecution(oracle, workers, trace) && s == trace[|trace| - 1]
    ensures Done(s) && s == RanFrom(oracle, workers, schedule)
  {
    s := Init(oracle, workers);
    ghost var trace := [s];
    InitInv(oracle, workers);
    while !Done(s)
      invariant IsExecution(oracle, workers, trace) && s == trace[|trace| - 1]
      invariant Inv(oracle, s) && |s.workers| == workers
      invariant Ran(oracle, s, schedule) == RanFrom(oracle, workers, schedule)
      decreases Measure(oracle, s)
    {
      var a := schedule(oracle, s);
      StepKeeps(oracle, s, a);
      StepLowers(oracle, s, a);
      ghost var t := Do(oracle, s, a);
      assert Steps(oracle, s, t);
      ExecutionGrows(oracle, workers, trace, t);
      s := Do(oracle, s, a);
      trace := trace + [s];
    }
  }

  // ----- the whole pass -----

  datatype ClientError = ContextCancelled | ContextFailed | PlanFailed(reason: PlanError) | SendFailed(batch: nat)

  /** What each send of the plan returns: the decoded reply, or an error. */
  function SendResults(keep: bool, reply: nat -> Option<Reply>, lists: Lists): (oracle: Oracle<Part>)
    ensures |oracle| == |lists|
  {
    seq(|lists|, b requires 0 <= b < |lists| =>
      match reply(b) case Some(answers) => Decode(keep, answers, lists[b]) case None => None)
  }

  lemma SentDecodes(keep: bool, reply: nat -> Option<Reply>, lists: Lists)
    requires forall b :: 0 <= b < |lists| ==> SendResults(keep, reply, lists)[b].Some?
    ensures forall b :: 0 <= b < |lists| ==> reply(b).Some? && Decode(keep, reply(b).value, lists[b]).Some?
  {
    forall b | 0 <= b < |lists|
      ensures reply(b).Some? && Decode(keep, reply(b).value, lists[b]).Some?
    {
      assert SendResults(keep, reply, lists)[b].Some?;
    }
  }

  /** The replies, when every send of the plan succeeds. */
  function Replies(keep: bool, reply: nat -> Option<Reply>, lists: Lists): (replies: seq<Reply>)
    requires forall b :: 0 <= b < |lists| ==> SendResults(keep, reply, lists)[b].Some?
    ensures AllDecoded(keep, replies, lists)
    ensures forall b :: 0 <= b < |lists| ==> reply(b) == Some(replies[b])
  {
    SentDecodes(keep, reply, lists);
    seq(|lists|, b requires 0 <= b < |lists| => reply(b).value)
  }

  /** The scores are the merge, in request order, of the decoded replies to the planned requests. */
  ghost predicate ScoredBy(p: Pass, reply: nat -> Option<Reply>, scores: Part) {
    && Plan(p, 0).Some?
    && var lists := Plan(p, 0).value;
       && (forall b :: 0 <= b < |lists| ==> SendResults(p.config.keepScoring, reply, lists)[b].Some?)
       && scores
         == MergeAll(map[], DecodedParts(p.config.keepScoring, Replies(p.config.keepScoring, reply, lists), lists))
  }

  lemma PartsAreReplies(keep: bool, reply: nat -> Option<Reply>, lists: Lists, parts: seq<Part>)
    requires |parts| == |lists|
    requires forall b :: 0 <= b < |lists| ==> SendResults(keep, reply, lists)[b] == Some(parts[b])
    ensures parts == DecodedParts(keep, Replies(keep, reply, lists), lists)
  {
    var replies := Replies(keep, reply, lists);
    forall b | 0 <= b < |lists|
      ensures parts[b] == DecodedParts(keep, replies, lists)[b]
    {
      assert reply(b) == Some(replies[b]);
      assert SendResults(keep, reply, lists)[b] == Decode(keep, replies[b], lists[b]);
    }
  }

  method SendAll(keep: bool, batches: seq<Batch>, reply: nat -> Option<Reply>, ghost lists: Lists)
    returns (oracle: Oracle<Part>)
    requires |batches| == |lists| && forall b :: 0 <= b < |batches| ==> batches[b].candidates == lists[b]
    ensures oracle == SendResults(keep, reply, lists)
  {
    oracle := [];
    for b := 0 to |batches|
      invariant oracle == SendResults(keep, reply, lists)[..b]
    {
      var part: Option<Part> := None;
      match reply(b) {
        case Some(answers) => part := DecodeAnswers(keep, answers, batches[b].candidates);
        case None =>
      }
      oracle := oracle + [part];
    }
  }

  /** The parts of a pool that has succeeded, without their wrapping. */
  function Unwrapped(parts: seq<Option<Part>>): (plain: seq<Part>)
    requires forall b :: 0 <= b < |parts| ==> parts[b].Some?
    ensures |plain| == |parts|
  {
    seq(|parts|, b requires 0 <= b < |parts| => parts[b].value)
  }

  function Workers(p: Pass, batches: nat): nat {
    if p.config.maxConcurrent < batches then p.config.maxConcurrent else batches
  }

  /** The send of every planned request succeeds. */
  ghost predicate AllAnswered(p: Pass, reply: nat -> Option<Reply>)
    requires Plan(p, 0).Some?
  {
    forall b :: 0 <= b < |Plan(p, 0).value| ==> Answered(p, reply, b)
  }

  ghost predicate Answered(p: Pass, reply: nat -> Option<Reply>, b: nat)
    requires Plan(p, 0).Some? && b < |Plan(p, 0).value|
  {
    SendResults(p.config.keepScoring, reply, Plan(p, 0).value)[b].Some?
  }

  /** Under this schedule the context is cancelled from outside while the requests are sent. */
  ghost predicate Interrupted(p: Pass, reply: nat -> Option<Reply>, schedule: Schedule)
    requires Plan(p, 0).Some? && IsSchedule(schedule) && p.config.maxConcurrent > 0
  {
    var lists := Plan(p, 0).value;
    RanFrom(SendResults(p.config.keepScoring, reply, lists), Workers(p, |lists|), schedule).outside
  }

  /** The reason for an error of the sends. */
  ghost predicate Excuse(p: Pass, reply: nat -> Option<Reply>, interrupted: bool, error: ClientError)
    requires Plan(p, 0).Some?
  {
    match error
    case ContextCancelled => interrupted
    case SendFailed(b) => b < |Plan(p, 0).value| && (!Answered(p, reply, b) || interrupted)
    case _ => false
  }

  /**
   The sends of a plan, whatever the schedule: they succeed exactly when each of them does
   and nobody cancels from outside, and a success is the merge of all replies in order.
   */
  method ScorePlan(p: Pass, batches: seq<Batch>, reply: nat -> Option<Reply>, schedule: Schedule)
    returns (r: Result<Part, ClientError>)
    requires Plan(p, 0).Some? && Carries(p, batches, Plan(p, 0).value)
    requires IsSchedule(schedule)
    requires p.config.maxConcurrent > 0
    ensures r.Success? ==> ScoredBy(p, reply, r.value)
    ensures r.Success? <==> AllAnswered(p, reply) && !Interrupted(p, reply, schedule)
    ensures r.Failure? ==> Excuse(p, reply, Interrupted(p, reply, schedule), r.error)
  {
    var keep := p.config.keepScoring;
    ghost var lists := Plan(p, 0).value;
    var oracle := SendAll(keep, batches, reply, lists);
    var s := RunPool(oracle, Workers(p, |batches|), schedule);
    ghost var trace :| IsExecution(oracle, Workers(p, |batches|), trace) && s == trace[|trace| - 1];
    ScheduleIndependent(oracle, Workers(p, |batches|), trace);
    EndIsDetermined(oracle, Workers(p, |batches|), trace);
    assert forall b :: 0 <= b < |lists| ==> (Answered(p, reply, b) <==> oracle[b].Some?);
    if s.firstErr.Some? {
      return Failure(SendFailed(s.firstErr.value));
    }
    if s.cancelled {
      return Failure(ContextCancelled);
    }
    var parts := Unwrapped(s.parts);
    PartsAreReplies(keep, reply, lists, parts);
    var scores := MergeParts(parts);
    r := Success(scores);
  }

  datatype ScoringStats = ScoringStats(requests: nat, contextShortened: bool)

  /** What the requests are made from: the evaluation with the context that fits. */
  function FittedPass(config: Config, wire: Wire, eval: Evaluation): Pass
    requires Fitted(config, wire, eval).Some?
  {
    PassFor(config, wire, eval.(context := Fitted(config, wire, eval).value))
  }

  /** The candidates can be sent in at most MaxBatches requests. */
  ghost predicate Plannable(p: Pass) {
    Plan(p, 0).Some? && |Plan(p, 0).value| <= p.config.maxBatches
  }

  /** The reason for an error of a pass whose context could be fitted. */
  ghost predicate Reason(p: Pass, reply: nat -> Option<Reply>, schedule: Schedule, error: ClientError)
    requires IsSchedule(schedule) && p.config.maxConcurrent > 0
  {
    match error
    case ContextFailed => false
    case PlanFailed(reason) => if reason == EncodingFailed then Unencodable(p) else !Plannable(p)
    case _ => Plannable(p) && Excuse(p, reply, Interrupted(p, reply, schedule), error)
  }

  /** `ScoreWithStats` */
  method ScoreWithStats(config: Config, wire: Wire, eval: Evaluation, reply: nat -> Option<Reply>,
                        schedule: Schedule, cancelled: bool)
    returns (r: Result<Part, ClientError>, stats: ScoringStats)
    requires config.maxConcurrent > 0
    requires IsSchedule(schedule)
    ensures cancelled ==> r == Failure(ContextCancelled)
    ensures !cancelled ==> (r == Failure(ContextFailed) <==> Fitted(config, wire, eval).None?)
    ensures !cancelled && r.Failure? && Fitted(config, wire, eval).Some? ==>
      Reason(FittedPass(config, wire, eval), reply, schedule, r.error)
    ensures !cancelled && Fitted(config, wire, eval).Some? && !Unencodable(FittedPass(config, wire, eval)) ==>
      var p := FittedPass(config, wire, eval);
      r.Success? <==> Plannable(p) && AllAnswered(p, reply) && !Interrupted(p, reply, schedule)
    ensures r.Success? ==> Fitted(config, wire, eval).Some? && ScoredBy(FittedPass(config, wire, eval), reply, r.value)
    ensures !cancelled && Fitted(config, wire, eval).Some? ==>
      && stats.contextShortened == (Fitted(config, wire, eval).value != eval.context)
      && (r.Success? || !r.error.PlanFailed? ==>
            var p := FittedPass(config, wire, eval);
            Plannable(p) && stats.requests == |Plan(p, 0).value|)
  {
    stats := ScoringStats(0, false);
    if cancelled {
      return Failure(ContextCancelled), stats;
    }
    var context := FitContext(config, wire, eval);
    if context.None? {
      return Failure(ContextFailed), stats;
    }
    stats := stats.(contextShortened := context.value != eval.context);
    var p := FittedPass(config, wire, eval);
    var batches := MakeBatches(p);
    if batches.Failure? {
      return Failure(PlanFailed(batches.error)), stats;
    }
    stats := stats.(requests := |batches.value|);
    r := ScorePlan(p, batches.value, reply, schedule);
  }

  /** What a successful pass returns is accepted by the engine, and is what was answered. */
  lemma SuccessIsAccepted(p: Pass, reply: nat -> Option<Reply>, scores: Part) returns (answer: Question -> real)
    requires ScoredBy(p, reply, scores) && DistinctCandidates(p.candidates)
    ensures ValidScores(p.candidates, scores)
    ensures scores == Table(p.config.keepScoring, answer, p.candidates)
    ensures forall b :: 0 <= b < |Plan(p, 0).value| ==>
      reply(b).Some? && Agree(reply(b).value, Asks(p.config.keepScoring, Plan(p, 0).value[b]), answer)
  {
    var lists := Plan(p, 0).value;
    var replies := Replies(p.config.keepScoring, reply, lists);
    answer := MergedScoresAreTheAnswers(p, replies);
    assert forall b :: 0 <= b < |lists| ==> reply(b) == Some(replies[b]);
  }
}
