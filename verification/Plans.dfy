/** What a plan is: which candidates each request carries, and why it ends where it does. */
module Plans {
  import opened Text
  import opened Transcript
  import opened Excerpts
  import opened Scores
  import opened Batching

  /** The candidates can be encoded in one request within the limits on bytes and on tokens. */
  ghost predicate SendsWithin(p: Pass, candidates: seq<Candidate>) {
    exists body, n ::
      && p.body(candidates) == Some(body) && p.countText(body) == Some(n)
      && |body| <= p.config.maxRequestBytes && n <= p.config.maxRequestTokens
  }

  lemma RoomIsWithin(p: Pass, candidates: seq<Candidate>)
    ensures Room(p, candidates) <==> SendsWithin(p, candidates)
  {
    if Room(p, candidates) {
      var body := p.body(candidates).value;
      assert p.countText(body) == Some(p.countText(body).value);
    }
  }

  // ----- how far a preview is cut -----

  /** A longer preview, of `n` bytes, did not fit, and this one is its first half, up to a rune boundary. */
  ghost predicate HalfOf(p: Pass, part: Candidate, c: Candidate, n: nat) {
    && n <= |c.preview| && |part.preview| <= n / 2
    && (exists complete: bool :: !SendsWithin(p, [c.(preview := c.preview[..n], complete := complete)]))
    && (forall m :: |part.preview| < m <= n / 2 && m < |c.preview| ==> !RuneStart(c.preview[m]))
  }

  /** The preview was cut no further than halving it until it fits requires. */
  ghost predicate CutAsNeeded(p: Pass, part: Candidate, c: Candidate) {
    part.preview == c.preview || exists n: nat :: HalfOf(p, part, c, n)
  }

  lemma HalvedIsHalf(p: Pass, c: Candidate)
    requires c.preview != "" && !SendsWithin(p, [c])
    ensures HalfOf(p, Halved(c), c, |c.preview|)
  {
    var n := |c.preview|;
    assert c.preview[..n] == c.preview;
    assert c.(preview := c.preview[..n], complete := c.complete) == c;
    var end := CutBack(c.preview, n / 2);
    assert |Halved(c).preview| == end;
  }

  lemma HalfOfHalved(p: Pass, part: Candidate, c: Candidate, n: nat)
    requires c.preview != "" && HalfOf(p, part, Halved(c), n)
    ensures HalfOf(p, part, c, n)
  {
    var half := Halved(c);
    assert half.preview[..n] == c.preview[..n];
    var complete :| !SendsWithin(p, [half.(preview := half.preview[..n], complete := complete)]);
    assert half.(preview := half.preview[..n], complete := complete)
      == c.(preview := c.preview[..n], complete := complete);
    forall m | |part.preview| < m <= n / 2 && m < |c.preview|
      ensures !RuneStart(c.preview[m])
    {
      assert m < |half.preview| ==> half.preview[m] == c.preview[m];
    }
  }

  lemma {:induction false} ShrunkAsNeeded(p: Pass, c: Candidate)
    requires Shrunk(p, c).Some?
    ensures CutAsNeeded(p, Shrunk(p, c).value, c)
    decreases |c.preview|
  {
    RoomIsWithin(p, [c]);
    if !Room(p, [c]) {
      var part := Shrunk(p, c).value;
      ShrunkAsNeeded(p, Halved(c));
      HalvedIsHalf(p, c);
      if part.preview == Halved(c).preview {
        assert HalfOf(p, part, c, |c.preview|);
      } else {
        var n: nat :| HalfOf(p, part, Halved(c), n);
        HalfOfHalved(p, part, c, n);
      }
    }
  }

  // ----- the turns of the plan -----

  /** One part of a candidate that does not fit: its own request, all else unchanged. */
  ghost predicate SentAlone(p: Pass, requests: seq<Candidate>, c: Candidate) {
    && |requests| == 1 && PartOf(requests[0], c) && CutAsNeeded(p, requests[0], c)
    && SendsWithin(p, requests)
  }

  /** The requests for a candidate that does not fit: under KeepScoring one, else one for each variant. */
  ghost predicate Splits(p: Pass, requests: Lists, c: Candidate) {
    if p.config.keepScoring then |requests| == 1 && SentAlone(p, requests[0], c)
    else
      && |requests| == |c.variants| > 0
      && forall j :: 0 <= j < |requests| ==> SentAlone(p, requests[j], c.(variants := [c.variants[j]]))
  }

  /** One request with consecutive candidates, as many as fit. */
  ghost predicate Fills(p: Pass, requests: Lists, start: nat, next: nat)
    requires next <= |p.candidates|
  {
    && start < next && requests == [p.candidates[start..next]]
    && (forall k :: start < k <= next ==> SendsWithin(p, p.candidates[start..k]))
    && (next < |p.candidates| ==> !SendsWithin(p, p.candidates[start..next + 1]))
  }

  /** One turn of the planning loop. */
  ghost predicate Turn(p: Pass, requests: Lists, start: nat, next: nat)
    requires start < next <= |p.candidates|
  {
    || Fills(p, requests, start, next)
    || (next == start + 1 && !SendsWithin(p, [p.candidates[start]]) && Splits(p, requests, p.candidates[start]))
  }

  ghost predicate TurnAt(p: Pass, at: seq<nat>, of: seq<Lists>, t: nat)
    requires t < |of| && |at| == |of| + 1
  {
    at[t] < at[t + 1] <= |p.candidates| && Turn(p, of[t], at[t], at[t + 1])
  }

  /** `at` are the candidates at which the turns start, `of` the requests of each turn. */
  ghost predicate Turns(p: Pass, requests: Lists, start: nat, at: seq<nat>, of: seq<Lists>) {
    && |at| == |of| + 1 && at[0] == start && at[|of|] == |p.candidates|
    && (forall t :: 0 <= t < |of| ==> TurnAt(p, at, of, t))
    && requests == Strung(of)
  }

  function Strung(of: seq<Lists>): Lists {
    if of == [] then [] else of[0] + Strung(of[1..])
  }

  lemma SplitsExactly(p: Pass, c: Candidate)
    requires SplitParts(p, c).Some?
    ensures Splits(p, Singles(SplitParts(p, c).value), c)
  {
    var parts := SplitParts(p, c).value;
    SplitIsExact(p, c);
    if p.config.keepScoring {
      ShrunkAsNeeded(p, c);
      RoomIsWithin(p, [parts[0]]);
    } else {
      forall j | 0 <= j < |parts|
        ensures SentAlone(p, [parts[j]], c.(variants := [c.variants[j]]))
      {
        assert parts[j] in parts;
        RoomIsWithin(p, [parts[j]]);
        PartIsShrunk(p, c, |c.variants|, j);
        ShrunkAsNeeded(p, c.(variants := [c.variants[j]]));
      }
    }
  }

  lemma {:induction false} PartIsShrunk(p: Pass, c: Candidate, n: nat, j: nat)
    requires j < n <= |c.variants| && VariantParts(p, c, n).Some? && |VariantParts(p, c, n).value| == n
    ensures Shrunk(p, c.(variants := [c.variants[j]])) == Some(VariantParts(p, c, n).value[j])
  {
    VariantPartsExact(p, c, n - 1);
    if j < n - 1 {
      PartIsShrunk(p, c, n - 1, j);
    }
  }

  lemma EndFills(p: Pass, start: nat)
    requires start < |p.candidates| && EndOf(p, start, start) > start
    ensures Fills(p, [p.candidates[start..EndOf(p, start, start)]], start, EndOf(p, start, start))
  {
    var end := EndOf(p, start, start);
    forall k | start < k <= end
      ensures SendsWithin(p, p.candidates[start..k])
    {
      RoomIsWithin(p, p.candidates[start..k]);
    }
    if end < |p.candidates| {
      RoomIsWithin(p, p.candidates[start..end + 1]);
    }
  }

  lemma TurnLater(p: Pass, at: seq<nat>, of: seq<Lists>, start: nat, first: Lists, t: nat)
    requires t < |of| && |at| == |of| + 1 && TurnAt(p, at, of, t)
    ensures TurnAt(p, [start] + at, [first] + of, t + 1)
  {
    assert ([start] + at)[t + 1] == at[t] && ([start] + at)[t + 2] == at[t + 1] && ([first] + of)[t + 1] == of[t];
  }

  lemma AddTurn(p: Pass, requests: Lists, start: nat, next: nat, first: Lists, at: seq<nat>, of: seq<Lists>)
    requires start < next <= |p.candidates| && Turn(p, first, start, next) && Turns(p, requests, next, at, of)
    ensures Turns(p, first + requests, start, [start] + at, [first] + of)
  {
    assert TurnAt(p, [start] + at, [first] + of, 0);
    forall t | 0 <= t < |[first] + of|
      ensures TurnAt(p, [start] + at, [first] + of, t)
    {
      if t > 0 {
        TurnLater(p, at, of, start, first, t - 1);
      }
    }
    assert ([first] + of)[1..] == of;
  }

  /** The next turn of the plan. */
  lemma NextTurn(p: Pass, start: nat) returns (first: Lists, next: nat)
    requires start < |p.candidates| && Plan(p, start).Some?
    ensures start < next <= |p.candidates| && Turn(p, first, start, next)
    ensures Plan(p, next).Some? && Plan(p, start).value == first + Plan(p, next).value
  {
    next := EndOf(p, start, start);
    if next == start {
      next := start + 1;
      first := Singles(SplitParts(p, p.candidates[start]).value);
      SplitsExactly(p, p.candidates[start]);
      assert p.candidates[start..start + 1] == [p.candidates[start]];
      RoomIsWithin(p, [p.candidates[start]]);
    } else {
      first := [p.candidates[start..next]];
      EndFills(p, start);
    }
  }

  /**
   A plan is made of turns that cover the candidates in order.  Each turn is one request
   with as many consecutive candidates as fit, or, for a candidate that does not fit alone,
   its parts, each sent alone with a preview cut no further than needed.
   */
  lemma {:induction false} PlanIsTurns(p: Pass, start: nat) returns (at: seq<nat>, of: seq<Lists>)
    requires start <= |p.candidates| && Plan(p, start).Some?
    ensures Turns(p, Plan(p, start).value, start, at, of)
    decreases |p.candidates| - start
  {
    if start == |p.candidates| {
      at, of := [start], [];
    } else {
      var first, next := NextTurn(p, start);
      at, of := PlanIsTurns(p, next);
      AddTurn(p, Plan(p, next).value, start, next, first, at, of);
      at, of := [start] + at, [first] + of;
    }
  }

  // ----- when there is no plan -----

  /** The candidate without its preview. */
  function Emptied(c: Candidate): Candidate {
    if c.preview == "" then c else c.(preview := "", complete := false)
  }

  lemma {:induction false} ShrunkFails(p: Pass, c: Candidate)
    requires Shrunk(p, c).None?
    ensures !SendsWithin(p, [c]) && !SendsWithin(p, [Emptied(c)])
    decreases |c.preview|
  {
    RoomIsWithin(p, [c]);
    if c.preview != "" {
      ShrunkFails(p, Halved(c));
      assert Emptied(Halved(c)) == Emptied(c);
    }
  }

  /** Not even without its preview can the candidate, or its part for some variant, be sent alone. */
  ghost predicate CannotBeSent(p: Pass, c: Candidate) {
    && !SendsWithin(p, [c])
    && if p.config.keepScoring then !SendsWithin(p, [Emptied(c)])
       else c.variants == [] || exists j :: 0 <= j < |c.variants| && PartCannotBeSent(p, c, j)
  }

  ghost predicate PartCannotBeSent(p: Pass, c: Candidate, j: nat)
    requires j < |c.variants|
  {
    !SendsWithin(p, [Emptied(c.(variants := [c.variants[j]]))])
  }

  lemma {:induction false} VariantPartsStop(p: Pass, c: Candidate, n: nat) returns (j: nat)
    requires n <= |c.variants| && VariantParts(p, c, n).None?
    ensures j < n && PartCannotBeSent(p, c, j)
  {
    if VariantParts(p, c, n - 1).None? {
      j := VariantPartsStop(p, c, n - 1);
    } else {
      j := n - 1;
      ShrunkFails(p, c.(variants := [c.variants[j]]));
    }
  }

  lemma SplitFails(p: Pass, c: Candidate)
    requires SplitParts(p, c).None? && !SendsWithin(p, [c])
    ensures CannotBeSent(p, c)
  {
    if p.config.keepScoring {
      ShrunkFails(p, c);
    } else if c.variants != [] {
      var j := VariantPartsStop(p, c, |c.variants|);
    }
  }

  /** There is no plan only when some candidate cannot be sent, in whatever parts. */
  lemma {:induction false} NoPlanNoWay(p: Pass, start: nat) returns (i: nat)
    requires start <= |p.candidates| && Plan(p, start).None?
    ensures start <= i < |p.candidates| && CannotBeSent(p, p.candidates[i])
    decreases |p.candidates| - start
  {
    var end := EndOf(p, start, start);
    if end == start {
      assert p.candidates[start..start + 1] == [p.candidates[start]];
      RoomIsWithin(p, [p.candidates[start]]);
      if SplitParts(p, p.candidates[start]).None? {
        i := start;
        SplitFails(p, p.candidates[start]);
      } else {
        i := NoPlanNoWay(p, start + 1);
      }
    } else {
      i := NoPlanNoWay(p, end);
    }
  }

  /** Every planned request keeps both limits. */
  lemma PlanKeepsLimits(p: Pass, b: nat)
    requires Plan(p, 0).Some? && b < |Plan(p, 0).value|
    ensures SendsWithin(p, Plan(p, 0).value[b])
  {
    PlanFits(p, 0);
    RoomIsWithin(p, Plan(p, 0).value[b]);
  }
}
