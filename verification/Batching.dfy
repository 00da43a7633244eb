/** `batches`, `splitCandidate`, `body` and `fits` of jev/client.go. */
module Batching {
  import opened Text
  import opened Transcript
  import opened Excerpts
  import opened Scores

  datatype Config = Config(
    keepScoring: bool,
    maxRequestBytes: nat,
    maxRequestTokens: nat,
    maxBatches: nat,
    maxConcurrent: nat)

  /** One planned request. */
  datatype Batch = Batch(body: string, candidates: seq<Candidate>)

  /**
   What planning works with: the encoded body of a list of candidates and the token
   counter, both of which can fail, and the candidates of the pass.
   */
  datatype Pass = Pass(
    config: Config,
    body: seq<Candidate> -> Option<string>,
    countText: string -> Option<nat>,
    candidates: seq<Candidate>)

  predicate Fits(p: Pass, body: string) {
    && |body| <= p.config.maxRequestBytes
    && p.countText(body).Some? && p.countText(body).value <= p.config.maxRequestTokens
  }

  /** The candidates can be sent in one request. */
  predicate Room(p: Pass, candidates: seq<Candidate>) {
    p.body(candidates).Some? && Fits(p, p.body(candidates).value)
  }

  // ----- how a batch grows -----

  /** The end of the batch that starts at `start` and already reaches `end`. */
  function EndOf(p: Pass, start: nat, end: nat): (e: nat)
    requires start <= end <= |p.candidates|
    ensures end <= e <= |p.candidates|
    ensures forall k :: end < k <= e ==> Room(p, p.candidates[start..k])
    ensures e == |p.candidates| || !Room(p, p.candidates[start..e + 1])
    decreases |p.candidates| - end
  {
    if end < |p.candidates| && Room(p, p.candidates[start..end + 1]) then EndOf(p, start, end + 1) else end
  }

  // ----- how an oversized candidate is split -----

  function Halved(c: Candidate): Candidate
    requires c.preview != ""
  {
    c.(preview := c.preview[..CutBack(c.preview, |c.preview| / 2)], complete := false)
  }

  /** The preview is halved at rune boundaries until the candidate can be sent alone. */
  function Shrunk(p: Pass, c: Candidate): Option<Candidate>
    decreases |c.preview|
  {
    if Room(p, [c]) then Some(c)
    else if c.preview == "" then None
    else Shrunk(p, Halved(c))
  }

  /** One part for each of the first `n` variants. */
  function VariantParts(p: Pass, c: Candidate, n: nat): Option<seq<Candidate>>
    requires n <= |c.variants|
  {
    if n == 0 then Some([])
    else
      var parts := VariantParts(p, c, n - 1);
      var part := Shrunk(p, c.(variants := [c.variants[n - 1]]));
      if parts.None? || part.None? then None else Some(parts.value + [part.value])
  }

  function SplitParts(p: Pass, c: Candidate): Option<seq<Candidate>> {
    if p.config.keepScoring then
      var part := Shrunk(p, c);
      if part.None? then None else Some([part.value])
    else if c.variants == [] then None
    else VariantParts(p, c, |c.variants|)
  }

  // ----- the plan: which candidates go into which request -----

  type Lists = seq<seq<Candidate>>

  /** First these lists, then the rest, if there is a rest. */
  function Then(lists: Lists, rest: Option<Lists>): Option<Lists> {
    match rest case Some(more) => Some(lists + more) case None => None
  }

  lemma ThenNothing(rest: Option<Lists>)
    ensures Then([], rest) == rest
  {
    if rest.Some? {
      assert [] + rest.value == rest.value;
    }
  }

  lemma ThenAssociates(a: Lists, b: Lists, rest: Option<Lists>)
    ensures Then(a, Then(b, rest)) == Then(a + b, rest)
  {
    if rest.Some? {
      assert a + (b + rest.value) == (a + b) + rest.value;
    }
  }

  /** The candidate lists of the requests for the candidates from `start` on. */
  function Plan(p: Pass, start: nat): Option<Lists>
    requires start <= |p.candidates|
    decreases |p.candidates| - start
  {
    var all := p.candidates;
    if start == |all| then Some([])
    else
      var end := EndOf(p, start, start);
      if end == start then
        match SplitParts(p, all[start])
        case Some(parts) => Then(Singles(parts), Plan(p, start + 1))
        case None => None
      else Then([all[start..end]], Plan(p, end))
  }

  function Singles(parts: seq<Candidate>): (lists: Lists)
    ensures |lists| == |parts| && forall k :: 0 <= k < |parts| ==> lists[k] == [parts[k]]
  {
    seq(|parts|, k requires 0 <= k < |parts| => [parts[k]])
  }

  /** The batches carry these candidate lists, each encoded as its own body. */
  ghost predicate Carries(p: Pass, batches: seq<Batch>, lists: Lists) {
    |batches| == |lists| &&
    forall k :: 0 <= k < |batches| ==> batches[k].candidates == lists[k] && p.body(lists[k]) == Some(batches[k].body)
  }

  // ----- the code -----

  datatype PlanError = EncodingFailed | TooLarge | TooManyBatches

  /** No encoding of some list of candidates, the reason for EncodingFailed. */
  ghost predicate Unencodable(p: Pass) {
    exists candidates :: p.body(candidates) == None
  }

  /** The loop that grows a batch. */
  method Grow(p: Pass, start: nat) returns (r: Option<(nat, string)>)
    requires start < |p.candidates|
    ensures r.None? ==> Unencodable(p)
    ensures r.Some? ==> r.value.0 == EndOf(p, start, start)
    ensures r.Some? && r.value.0 > start ==> p.body(p.candidates[start..r.value.0]) == Some(r.value.1)
  {
    var end := start;
    var accepted := "";
    while end < |p.candidates|
      invariant start <= end <= |p.candidates|
      invariant EndOf(p, start, end) == EndOf(p, start, start)
      invariant end > start ==> p.body(p.candidates[start..end]) == Some(accepted)
    {
      var body := p.body(p.candidates[start..end + 1]);
      if body.None? {
        return None;
      }
      if !Fits(p, body.value) {
        break;
      }
      accepted := body.value;
      end := end + 1;
    }
    r := Some((end, accepted));
  }

  /** The halving loop for one part. */
  method ShrinkToFit(p: Pass, c: Candidate) returns (r: Result<Batch, PlanError>)
    ensures r.Success? ==> exists part :: Shrunk(p, c) == Some(part) && Carries(p, [r.value], [[part]])
    ensures r.Failure? ==> (r.error == EncodingFailed && Unencodable(p)) || (r.error == TooLarge && Shrunk(p, c).None?)
  {
    var part := c;
    while true
      invariant Shrunk(p, part) == Shrunk(p, c)
      decreases |part.preview|
    {
      var body := p.body([part]);
      if body.None? {
        return Failure(EncodingFailed);
      }
      if Fits(p, body.value) {
        return Success(Batch(body.value, [part]));
      }
      if part.preview == "" {
        return Failure(TooLarge);
      }
      var end := |part.preview| / 2;
      while end > 0 && !RuneStart(part.preview[end])
        invariant 0 <= end < |part.preview|
        invariant CutBack(part.preview, end) == CutBack(part.preview, |part.preview| / 2)
      {
        end := end - 1;
      }
      part := part.(preview := part.preview[..end], complete := false);
    }
  }

  lemma {:induction false} VariantPartsFail(p: Pass, c: Candidate, j: nat, n: nat)
    requires j <= n <= |c.variants| && VariantParts(p, c, j).None?
    ensures VariantParts(p, c, n).None?
  {
    if j < n {
      VariantPartsFail(p, c, j, n - 1);
    }
  }

  method SplitVariants(p: Pass, c: Candidate) returns (r: Result<seq<Batch>, PlanError>)
    ensures r.Success? ==>
      exists parts :: VariantParts(p, c, |c.variants|) == Some(parts) && Carries(p, r.value, Singles(parts))
    ensures r.Failure? && r.error == EncodingFailed ==> Unencodable(p)
    ensures r.Failure? && r.error != EncodingFailed ==> r.error == TooLarge && VariantParts(p, c, |c.variants|).None?
  {
    var batches: seq<Batch> := [];
    ghost var parts: seq<Candidate> := [];
    for n := 0 to |c.variants|
      invariant VariantParts(p, c, n) == Some(parts) && Carries(p, batches, Singles(parts))
    {
      var one := ShrinkToFit(p, c.(variants := [c.variants[n]]));
      if one.Failure? {
        if one.error == TooLarge {
          VariantPartsFail(p, c, n + 1, |c.variants|);
        }
        return Failure(one.error);
      }
      ghost var part :| Shrunk(p, c.(variants := [c.variants[n]])) == Some(part) && Carries(p, [one.value], [[part]]);
      CarriesConcat(p, batches, Singles(parts), [one.value], [[part]]);
      batches := batches + [one.value];
      parts := parts + [part];
      assert Singles(parts) == Singles(parts[..|parts| - 1]) + [[part]];
    }
    r := Success(batches);
  }

  lemma CarriesConcat(p: Pass, a: seq<Batch>, x: Lists, b: seq<Batch>, y: Lists)
    requires Carries(p, a, x) && Carries(p, b, y)
    ensures Carries(p, a + b, x + y)
  {
  }

  method SplitCandidate(p: Pass, c: Candidate) returns (r: Result<seq<Batch>, PlanError>)
    ensures r.Success? ==> exists parts :: SplitParts(p, c) == Some(parts) && Carries(p, r.value, Singles(parts))
    ensures r.Failure? ==>
      (r.error == EncodingFailed && Unencodable(p)) || (r.error == TooLarge && SplitParts(p, c).None?)
  {
    if p.config.keepScoring {
      var one := ShrinkToFit(p, c);
      if one.Failure? {
        return Failure(one.error);
      }
      ghost var part :| Shrunk(p, c) == Some(part) && Carries(p, [one.value], [[part]]);
      assert Singles([part]) == [[part]];
      return Success([one.value]);
    }
    if c.variants == [] {
      return Failure(TooLarge);
    }
    r := SplitVariants(p, c);
  }

  /** The rest of the plan, once the batches up to `start` are made. */
  ghost predicate Planned(p: Pass, batches: seq<Batch>, lists: Lists, start: nat)
    requires start <= |p.candidates|
  {
    && Carries(p, batches, lists)
    && Plan(p, 0) == Then(lists, Plan(p, start))
  }

  /** One turn of the planning loop: the next batch, or the parts of a split candidate. */
  method NextBatches(p: Pass, start: nat) returns (r: Result<(seq<Batch>, nat), PlanError>, ghost lists: Lists)
    requires start < |p.candidates|
    ensures r.Failure? ==>
      (r.error == EncodingFailed && Unencodable(p)) || (r.error == TooLarge && Plan(p, start).None?)
    ensures r.Success? ==> start < r.value.1 <= |p.candidates| && Carries(p, r.value.0, lists)
    ensures r.Success? ==> Plan(p, start) == Then(lists, Plan(p, r.value.1))
  {
    lists := [];
    var grown := Grow(p, start);
    if grown.None? {
      return Failure(EncodingFailed), lists;
    }
    var (end, accepted) := grown.value;
    if end == start {
      var split := SplitCandidate(p, p.candidates[start]);
      if split.Failure? {
        return Failure(split.error), lists;
      }
      ghost var parts :| SplitParts(p, p.candidates[start]) == Some(parts) && Carries(p, split.value, Singles(parts));
      lists := Singles(parts);
      return Success((split.value, start + 1)), lists;
    }
    lists := [p.candidates[start..end]];
    r := Success(([Batch(accepted, p.candidates[start..end])], end));
  }

  lemma PlannedStep(p: Pass, batches: seq<Batch>, lists: Lists, start: nat,
                    more: seq<Batch>, moreLists: Lists, next: nat)
    requires start < next <= |p.candidates| && Planned(p, batches, lists, start)
    requires Carries(p, more, moreLists)
    requires Plan(p, start) == Then(moreLists, Plan(p, next))
    ensures Planned(p, batches + more, lists + moreLists, next)
  {
    CarriesConcat(p, batches, lists, more, moreLists);
    ThenAssociates(lists, moreLists, Plan(p, next));
  }

  /**
   `batches`: succeeds with the plan when it exists and stays within MaxBatches; a failure
   means that a body could not be encoded, or that there is no such plan.
   */
  method MakeBatches(p: Pass) returns (r: Result<seq<Batch>, PlanError>)
    ensures r.Success? ==> Plan(p, 0).Some? && Carries(p, r.value, Plan(p, 0).value) && |r.value| <= p.config.maxBatches
    ensures r.Failure? && r.error != EncodingFailed ==> Plan(p, 0).None? || |Plan(p, 0).value| > p.config.maxBatches
    ensures r.Failure? && r.error == EncodingFailed ==> Unencodable(p)
  {
    var batches: seq<Batch> := [];
    ghost var lists: Lists := [];
    var start := 0;
    ThenNothing(Plan(p, 0));
    while start < |p.candidates|
      invariant 0 <= start <= |p.candidates|
      invariant Planned(p, batches, lists, start) && |batches| <= p.config.maxBatches
    {
      var next;
      ghost var more;
      next, more := NextBatches(p, start);
      if next.Failure? {
        return Failure(next.error);
      }
      PlannedStep(p, batches, lists, start, next.value.0, more, next.value.1);
      batches := batches + next.value.0;
      lists := lists + more;
      if |batches| > p.config.maxBatches {
        return Failure(TooManyBatches);
      }
      start := next.value.1;
    }
    assert Plan(p, start) == Some([]) && lists + [] == lists;
    r := Success(batches);
  }

  // ----- what splitting keeps -----

  /** A part differs from the candidate in its preview only: a rune-boundary prefix, marked when shorter. */
  ghost predicate PartOf(part: Candidate, c: Candidate) {
    && part.id == c.id && part.tokens == c.tokens && part.variants == c.variants
    && part.preview <= c.preview && RuneBoundary(c.preview, |part.preview|)
    && part.complete == (c.complete && part.preview == c.preview)
  }

  lemma PartOfHalved(part: Candidate, c: Candidate)
    requires c.preview != "" && PartOf(part, Halved(c))
    ensures PartOf(part, c) && !part.complete && |part.preview| < |c.preview|
  {
    var half := Halved(c).preview;
    assert |half| < |c.preview|;
    assert part.preview == half[..|part.preview|] == c.preview[..|part.preview|];
    if |part.preview| < |half| {
      assert c.preview[|part.preview|] == half[|part.preview|];
    }
  }

  lemma {:induction false} ShrunkIsPart(p: Pass, c: Candidate)
    requires Shrunk(p, c).Some?
    ensures PartOf(Shrunk(p, c).value, c) && Room(p, [Shrunk(p, c).value])
    decreases |c.preview|
  {
    if !Room(p, [c]) {
      ShrunkIsPart(p, Halved(c));
      PartOfHalved(Shrunk(p, c).value, c);
    }
  }

  lemma {:induction false} VariantPartsExact(p: Pass, c: Candidate, n: nat)
    requires n <= |c.variants| && VariantParts(p, c, n).Some?
    ensures var parts := VariantParts(p, c, n).value;
      |parts| == n && forall j :: 0 <= j < n ==>
        PartOf(parts[j], c.(variants := [c.variants[j]])) && Room(p, [parts[j]])
  {
    if n > 0 {
      VariantPartsExact(p, c, n - 1);
      ShrunkIsPart(p, c.(variants := [c.variants[n - 1]]));
    }
  }

  /** A split candidate gives one request a variant, with that variant untouched (one in all under KeepScoring). */
  lemma SplitIsExact(p: Pass, c: Candidate)
    requires SplitParts(p, c).Some?
    ensures forall part :: part in SplitParts(p, c).value ==> Room(p, [part])
    ensures var parts := SplitParts(p, c).value;
      if p.config.keepScoring then |parts| == 1 && PartOf(parts[0], c)
      else
        && |parts| == |c.variants| > 0
        && forall j :: 0 <= j < |parts| ==> PartOf(parts[j], c.(variants := [c.variants[j]]))
  {
    if p.config.keepScoring {
      ShrunkIsPart(p, c);
    } else {
      VariantPartsExact(p, c, |c.variants|);
    }
  }

  /** Every planned request fits both limits. */
  lemma {:induction false} PlanFits(p: Pass, start: nat)
    requires start <= |p.candidates| && Plan(p, start).Some?
    ensures forall k :: 0 <= k < |Plan(p, start).value| ==> Room(p, Plan(p, start).value[k])
    decreases |p.candidates| - start
  {
    if start < |p.candidates| {
      var end := EndOf(p, start, start);
      if end == start {
        PlanFits(p, start + 1);
        SplitIsExact(p, p.candidates[start]);
      } else {
        PlanFits(p, end);
      }
    }
  }
}
