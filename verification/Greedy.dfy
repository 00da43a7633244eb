/** The greedy loop of `selectMessages` in compact/selection.go. */
module Greedy {
  import opened Transcript
  import opened Scores

  /** The `selection` struct. */
  datatype Choice = Choice(messages: seq<Message>, tokens: nat, action: string, loss: real)

  /** What the loop looks at, group by group: the original choice, the proposals and their score. */
  datatype Board = Board(locked: seq<bool>, base: seq<Choice>, offers: seq<seq<Variant>>, scores: seq<Score>)

  predicate Sized(b: Board) {
    |b.base| == |b.locked| && |b.offers| == |b.locked| && |b.scores| == |b.locked|
  }

  /** Proposal `k` of group `i` may be taken: the group is not protected and the policy allows the action. */
  predicate Permitted(b: Board, i: int, k: int)
    requires Sized(b)
  {
    && 0 <= i < |b.locked| && !b.locked[i]
    && 0 <= k < |b.offers[i]| && ActionLoss(b.scores[i], b.offers[i][k].action).Some?
  }

  function Taken(b: Board, i: int, k: int): Choice
    requires Sized(b) && Permitted(b, i, k)
  {
    var v := b.offers[i][k];
    Choice(v.messages, v.tokens, v.action, ActionLoss(b.scores[i], v.action).value)
  }

  predicate Move(b: Board, sel: seq<Choice>, i: int, k: int)
    requires Sized(b) && |sel| == |b.locked|
  {
    Permitted(b, i, k) && b.offers[i][k].tokens < sel[i].tokens
  }

  /** Marginal loss for each token saved, measured from the representation in use. */
  function Weight(b: Board, sel: seq<Choice>, i: int, k: int): real
    requires Sized(b) && |sel| == |b.locked| && Move(b, sel, i, k)
  {
    (0.001 + MaxReal(0.0, Taken(b, i, k).loss - sel[i].loss)) / (sel[i].tokens - b.offers[i][k].tokens) as real
  }

  predicate Earlier(i: int, k: int, j: int, l: int) {
    i < j || (i == j && k < l)
  }

  /** No move is lighter, and no move that is visited before is as light. */
  ghost predicate Best(b: Board, sel: seq<Choice>, i: int, k: int)
    requires Sized(b) && |sel| == |b.locked|
  {
    && Move(b, sel, i, k)
    && forall j, l :: Move(b, sel, j, l) ==>
         && Weight(b, sel, i, k) <= Weight(b, sel, j, l)
         && (Earlier(j, l, i, k) ==> Weight(b, sel, i, k) < Weight(b, sel, j, l))
  }

  lemma BestIsUnique(b: Board, sel: seq<Choice>, i: int, k: int, j: int, l: int)
    requires Sized(b) && |sel| == |b.locked|
    requires Best(b, sel, i, k) && Best(b, sel, j, l)
    ensures i == j && k == l
  {
    assert Earlier(i, k, j, l) || Earlier(j, l, i, k) || (i == j && k == l);
  }

  /** What a move adds to the loss of the form in use; a move to a lower loss adds nothing. */
  ghost function Added(b: Board, sel: seq<Choice>, i: int, k: int): (x: real)
    requires Sized(b) && |sel| == |b.locked| && 0 <= i < |sel| && 0 <= k < |b.offers[i]|
    requires ActionLoss(b.scores[i], b.offers[i][k].action).Some?
    ensures x >= 0.0
  {
    var loss := ActionLoss(b.scores[i], b.offers[i][k].action).value;
    if loss > sel[i].loss then loss - sel[i].loss else 0.0
  }

  /** A permitted proposal of an unprotected group that is cheaper than the form in use. */
  ghost predicate Saves(b: Board, sel: seq<Choice>, i: int, k: int)
    requires Sized(b) && |sel| == |b.locked|
  {
    && 0 <= i < |sel| && !b.locked[i] && 0 <= k < |b.offers[i]|
    && b.offers[i][k].tokens < sel[i].tokens
    && ActionLoss(b.scores[i], b.offers[i][k].action).Some?
  }

  /**
   The move adds no more loss for each token saved than any other, a thousandth being added
   to every loss, and less than any that is visited before it.
   */
  ghost predicate Lightest(b: Board, sel: seq<Choice>, i: int, k: int)
    requires Sized(b) && |sel| == |b.locked|
  {
    && Saves(b, sel, i, k)
    && forall j, l :: Saves(b, sel, j, l) ==>
         var mine := (0.001 + Added(b, sel, i, k)) * (sel[j].tokens - b.offers[j][l].tokens) as real;
         var other := (0.001 + Added(b, sel, j, l)) * (sel[i].tokens - b.offers[i][k].tokens) as real;
         mine <= other && (j < i || (j == i && l < k) ==> mine < other)
  }

  lemma Quotients(a: real, s: real, c: real, t: real)
    requires s > 0.0 && t > 0.0
    ensures a / s <= c / t ==> a * t <= c * s
    ensures a / s < c / t ==> a * t < c * s
  {
    var x, y := a / s, c / t;
    assert a == x * s && c == y * t;
    assert a * t == x * (s * t) && c * s == y * (s * t);
  }

  lemma BestIsLightest(b: Board, sel: seq<Choice>, i: int, k: int)
    requires Sized(b) && |sel| == |b.locked| && Best(b, sel, i, k)
    ensures Lightest(b, sel, i, k)
  {
    forall j, l | Saves(b, sel, j, l)
      ensures var mine := (0.001 + Added(b, sel, i, k)) * (sel[j].tokens - b.offers[j][l].tokens) as real;
        var other := (0.001 + Added(b, sel, j, l)) * (sel[i].tokens - b.offers[i][k].tokens) as real;
        mine <= other && (j < i || (j == i && l < k) ==> mine < other)
    {
      assert Move(b, sel, j, l);
      Quotients(0.001 + Added(b, sel, i, k), (sel[i].tokens - b.offers[i][k].tokens) as real,
                0.001 + Added(b, sel, j, l), (sel[j].tokens - b.offers[j][l].tokens) as real);
    }
  }

  /** No other move adds less loss and saves as many tokens. */
  lemma NoBetterMove(b: Board, sel: seq<Choice>, i: int, k: int, j: int, l: int)
    requires Sized(b) && |sel| == |b.locked| && Lightest(b, sel, i, k) && Saves(b, sel, j, l)
    requires Added(b, sel, j, l) < Added(b, sel, i, k)
    ensures sel[j].tokens - b.offers[j][l].tokens < sel[i].tokens - b.offers[i][k].tokens
  {
    var s, t := (sel[i].tokens - b.offers[i][k].tokens) as real, (sel[j].tokens - b.offers[j][l].tokens) as real;
    var x, y := 0.001 + Added(b, sel, i, k), 0.001 + Added(b, sel, j, l);
    assert x * t <= y * s;
    LowerTakesMore(x, y, s, t);
  }

  lemma LowerTakesMore(x: real, y: real, s: real, t: real)
    requires 0.0 < y < x && s > 0.0 && t > 0.0 && x * t <= y * s
    ensures t < s
  {
    assert y * s < x * s;
    assert x * (s - t) > 0.0;
  }

  ghost predicate Stuck(b: Board, sel: seq<Choice>)
    requires Sized(b) && |sel| == |b.locked|
  {
    forall i, k :: !Move(b, sel, i, k)
  }

  ghost predicate Step(b: Board, sel: seq<Choice>, next: seq<Choice>)
    requires Sized(b) && |sel| == |b.locked|
  {
    exists i, k :: Best(b, sel, i, k) && next == sel[i := Taken(b, i, k)]
  }

  function Total(sel: seq<Choice>): nat {
    if sel == [] then 0 else sel[0].tokens + Total(sel[1..])
  }

  /** State `t` of the trace is over the target and followed by its best move. */
  ghost predicate TurnAt(b: Board, target: int, trace: seq<seq<Choice>>, t: int)
    requires Sized(b) && 0 <= t < |trace| - 1 && |trace[t]| == |b.locked|
  {
    Total(trace[t]) > target && Step(b, trace[t], trace[t + 1])
  }

  /** A run from the originals: each state is over the target and followed by its best move. */
  ghost predicate IsRun(b: Board, target: int, trace: seq<seq<Choice>>)
    requires Sized(b)
  {
    && |trace| > 0 && trace[0] == b.base
    && (forall t :: 0 <= t < |trace| ==> |trace[t]| == |b.locked|)
    && forall t :: 0 <= t < |trace| - 1 ==> TurnAt(b, target, trace, t)
  }

  /** The loop's exit condition. */
  ghost predicate Finished(b: Board, target: int, sel: seq<Choice>)
    requires Sized(b) && |sel| == |b.locked|
  {
    Total(sel) <= target || Stuck(b, sel)
  }

  // ----- what every run keeps -----

  /** The choice is the original or a permitted proposal. */
  ghost predicate Legal(b: Board, i: int, c: Choice)
    requires Sized(b) && 0 <= i < |b.locked|
  {
    c == b.base[i] || exists k :: Permitted(b, i, k) && c == Taken(b, i, k)
  }

  ghost predicate AllLegal(b: Board, sel: seq<Choice>)
    requires Sized(b)
  {
    |sel| == |b.locked| && forall i :: 0 <= i < |sel| ==> Legal(b, i, sel[i]) && sel[i].tokens <= b.base[i].tokens
  }

  lemma {:induction false} TotalUpdate(sel: seq<Choice>, i: nat, c: Choice)
    requires i < |sel|
    ensures Total(sel[i := c]) == Total(sel) - sel[i].tokens + c.tokens
  {
    if i == 0 {
      assert sel[0 := c][1..] == sel[1..];
    } else {
      TotalUpdate(sel[1..], i - 1, c);
      assert sel[i := c][1..] == sel[1..][i - 1 := c];
    }
  }

  lemma {:induction false} RunIsLegal(b: Board, target: int, trace: seq<seq<Choice>>, t: nat)
    requires Sized(b) && IsRun(b, target, trace) && t < |trace|
    ensures AllLegal(b, trace[t])
  {
    if t > 0 {
      RunIsLegal(b, target, trace, t - 1);
      assert TurnAt(b, target, trace, t - 1);
    }
  }

  /** Every step lowers the total, so a run never goes back. */
  lemma StepLowers(b: Board, sel: seq<Choice>, next: seq<Choice>)
    requires Sized(b) && |sel| == |b.locked| && Step(b, sel, next)
    ensures Total(next) < Total(sel)
  {
    var i, k :| Best(b, sel, i, k) && next == sel[i := Taken(b, i, k)];
    TotalUpdate(sel, i, Taken(b, i, k));
  }

  /**
   Every state of a run but the last is over the target, and differs from the next in one
   group, which takes its lightest move: messages, tokens, action and loss of the proposal.
   */
  lemma StepTakesLightest(b: Board, target: int, trace: seq<seq<Choice>>, t: int) returns (i: int, k: int)
    requires Sized(b) && IsRun(b, target, trace) && 0 <= t < |trace| - 1
    ensures |trace[t]| == |b.locked| && Total(trace[t]) > target && Lightest(b, trace[t], i, k)
    ensures var v := b.offers[i][k];
      trace[t + 1] == trace[t][
        i := Choice(v.messages, v.tokens, v.action, ActionLoss(b.scores[i], v.action).value)]
  {
    assert TurnAt(b, target, trace, t);
    i, k :| Best(b, trace[t], i, k) && trace[t + 1] == trace[t][i := Taken(b, i, k)];
    BestIsLightest(b, trace[t], i, k);
  }

  /** The run is determined: two finished runs are the same run. */
  lemma RunIsUnique(b: Board, target: int, a: seq<seq<Choice>>, c: seq<seq<Choice>>)
    requires Sized(b) && IsRun(b, target, a) && IsRun(b, target, c)
    requires Finished(b, target, a[|a| - 1]) && Finished(b, target, c[|c| - 1])
    ensures a == c
  {
    if |a| <= |c| {
      RunPrefix(b, target, a, c, |a| - 1);
    } else {
      RunPrefix(b, target, c, a, |c| - 1);
    }
  }

  lemma {:induction false} RunPrefix(b: Board, target: int, a: seq<seq<Choice>>, c: seq<seq<Choice>>, t: nat)
    requires Sized(b) && IsRun(b, target, a) && IsRun(b, target, c) && t < |a| <= |c|
    ensures forall u :: 0 <= u <= t ==> a[u] == c[u]
    ensures t == |a| - 1 && Finished(b, target, a[t]) ==> |c| == |a|
  {
    if t > 0 {
      RunPrefix(b, target, a, c, t - 1);
      assert TurnAt(b, target, a, t - 1) && TurnAt(b, target, c, t - 1);
      var i, k :| Best(b, a[t - 1], i, k) && a[t] == a[t - 1][i := Taken(b, i, k)];
      var j, l :| Best(b, c[t - 1], j, l) && c[t] == c[t - 1][j := Taken(b, j, l)];
      BestIsUnique(b, a[t - 1], i, k, j, l);
    }
    if t < |c| - 1 {
      assert TurnAt(b, target, c, t);
      assert !Finished(b, target, c[t]);
    }
  }

  // ----- how long a run can be -----

  function Below(offers: seq<Variant>, tokens: nat): (n: nat)
    ensures n <= |offers|
  {
    if offers == [] then 0 else (if offers[0].tokens < tokens then 1 else 0) + Below(offers[1..], tokens)
  }

  lemma {:induction false} BelowMonotone(offers: seq<Variant>, s: nat, t: nat)
    requires s <= t
    ensures Below(offers, s) <= Below(offers, t)
  {
    if offers != [] {
      BelowMonotone(offers[1..], s, t);
    }
  }

  lemma {:induction false} BelowFalls(offers: seq<Variant>, k: nat, tokens: nat)
    requires k < |offers| && offers[k].tokens < tokens
    ensures Below(offers, offers[k].tokens) < Below(offers, tokens)
  {
    if k > 0 {
      BelowFalls(offers[1..], k - 1, tokens);
    } else {
      BelowMonotone(offers[1..], offers[0].tokens, tokens);
    }
  }

  /** The proposals of unprotected groups that are still cheaper than the choice in use. */
  function Potential(b: Board, sel: seq<Choice>, i: nat): nat
    requires Sized(b) && |sel| == |b.locked| && i <= |sel|
  {
    if i == 0 then 0
    else (if b.locked[i - 1] then 0 else Below(b.offers[i - 1], sel[i - 1].tokens)) + Potential(b, sel, i - 1)
  }

  lemma {:induction false} PotentialUpdate(b: Board, sel: seq<Choice>, i: nat, j: nat, c: Choice)
    requires Sized(b) && |sel| == |b.locked| && i <= |sel| && j < |sel| && !b.locked[j]
    requires Below(b.offers[j], c.tokens) < Below(b.offers[j], sel[j].tokens)
    ensures if j < i then Potential(b, sel[j := c], i) < Potential(b, sel, i)
            else Potential(b, sel[j := c], i) == Potential(b, sel, i)
  {
    if i > 0 {
      PotentialUpdate(b, sel, i - 1, j, c);
    }
  }

  lemma PotentialFalls(b: Board, sel: seq<Choice>, next: seq<Choice>)
    requires Sized(b) && |sel| == |b.locked| && Step(b, sel, next)
    ensures Potential(b, next, |next|) < Potential(b, sel, |sel|)
  {
    var i, k :| Best(b, sel, i, k) && next == sel[i := Taken(b, i, k)];
    BelowFalls(b.offers[i], k, sel[i].tokens);
    PotentialUpdate(b, sel, |sel|, i, Taken(b, i, k));
  }

  function Unlocked(locked: seq<bool>, i: nat): nat
    requires i <= |locked|
  {
    if i == 0 then 0 else (if locked[i - 1] then 0 else 1) + Unlocked(locked, i - 1)
  }

  lemma {:induction false} PotentialBound(b: Board, sel: seq<Choice>, i: nat, most: nat)
    requires Sized(b) && |sel| == |b.locked| && i <= |sel|
    requires forall j :: 0 <= j < |b.offers| ==> |b.offers[j]| <= most
    ensures Potential(b, sel, i) <= most * Unlocked(b.locked, i)
  {
    if i > 0 {
      PotentialBound(b, sel, i - 1, most);
      var before := Unlocked(b.locked, i - 1);
      assert most * (before + 1) == most * before + most;
    }
  }

  lemma {:induction false} RunSpendsPotential(b: Board, target: int, trace: seq<seq<Choice>>, t: nat)
    requires Sized(b) && IsRun(b, target, trace) && t < |trace|
    ensures t + Potential(b, trace[t], |trace[t]|) <= Potential(b, b.base, |b.base|)
  {
    if t > 0 {
      RunSpendsPotential(b, target, trace, t - 1);
      assert TurnAt(b, target, trace, t - 1);
      PotentialFalls(b, trace[t - 1], trace[t]);
    }
  }

  /** No group moves more often than it has proposals: with at most `most` each, this many steps. */
  lemma RunLength(b: Board, target: int, trace: seq<seq<Choice>>, most: nat)
    requires Sized(b) && IsRun(b, target, trace)
    requires forall j :: 0 <= j < |b.offers| ==> |b.offers[j]| <= most
    ensures |trace| - 1 <= most * Unlocked(b.locked, |b.locked|)
  {
    RunSpendsPotential(b, target, trace, |trace| - 1);
    PotentialBound(b, b.base, |b.base|, most);
  }

  // ----- feasibility -----

  /** An assignment gives every group its original (-1) or one permitted proposal. */
  predicate IsAssignment(b: Board, pick: seq<int>)
    requires Sized(b)
  {
    |pick| == |b.locked| && forall i :: 0 <= i < |pick| ==> pick[i] == -1 || Permitted(b, i, pick[i])
  }

  function Assigned(b: Board, pick: seq<int>): (sel: seq<Choice>)
    requires Sized(b) && IsAssignment(b, pick)
    ensures |sel| == |pick|
  {
    seq(|pick|, i requires 0 <= i < |pick| => if pick[i] == -1 then b.base[i] else Taken(b, i, pick[i]))
  }

  ghost predicate Feasible(b: Board, target: int)
    requires Sized(b)
  {
    exists pick :: IsAssignment(b, pick) && Total(Assigned(b, pick)) <= target
  }

  lemma {:induction false} TotalMonotone(a: seq<Choice>, c: seq<Choice>)
    requires |a| == |c| && forall i :: 0 <= i < |a| ==> a[i].tokens <= c[i].tokens
    ensures Total(a) <= Total(c)
  {
    if a != [] {
      TotalMonotone(a[1..], c[1..]);
    }
  }

  /** A stuck state holds, group by group, the fewest tokens any assignment could give it. */
  lemma StuckIsMinimal(b: Board, sel: seq<Choice>, pick: seq<int>)
    requires Sized(b) && AllLegal(b, sel) && Stuck(b, sel) && IsAssignment(b, pick)
    ensures forall i :: 0 <= i < |sel| ==> sel[i].tokens <= Assigned(b, pick)[i].tokens
    ensures Total(sel) <= Total(Assigned(b, pick))
  {
    forall i | 0 <= i < |sel|
      ensures sel[i].tokens <= Assigned(b, pick)[i].tokens
    {
      if pick[i] != -1 {
        assert !Move(b, sel, i, pick[i]);
      }
    }
    TotalMonotone(sel, Assigned(b, pick));
  }

  lemma LegalIsAssigned(b: Board, sel: seq<Choice>) returns (pick: seq<int>)
    requires Sized(b) && AllLegal(b, sel)
    ensures IsAssignment(b, pick) && Assigned(b, pick) == sel
  {
    pick := [];
    while |pick| < |sel|
      invariant |pick| <= |sel|
      invariant forall i :: 0 <= i < |pick| ==>
        (pick[i] == -1 && sel[i] == b.base[i]) || (Permitted(b, i, pick[i]) && sel[i] == Taken(b, i, pick[i]))
    {
      var i := |pick|;
      assert Legal(b, i, sel[i]);
      if sel[i] == b.base[i] {
        pick := pick + [-1];
      } else {
        var k :| Permitted(b, i, k) && sel[i] == Taken(b, i, k);
        pick := pick + [k];
      }
    }
  }

  /** The greedy loop meets the target exactly when some assignment does. */
  lemma GreedyIsComplete(b: Board, target: int, trace: seq<seq<Choice>>)
    requires Sized(b) && IsRun(b, target, trace) && Finished(b, target, trace[|trace| - 1])
    ensures Total(trace[|trace| - 1]) <= target <==> Feasible(b, target)
  {
    var sel := trace[|trace| - 1];
    RunIsLegal(b, target, trace, |trace| - 1);
    if Total(sel) <= target {
      var pick := LegalIsAssigned(b, sel);
    } else if Feasible(b, target) {
      var pick :| IsAssignment(b, pick) && Total(Assigned(b, pick)) <= target;
      StuckIsMinimal(b, sel, pick);
    }
  }

  ghost predicate EndsAt(b: Board, target: int, trace: seq<seq<Choice>>, sel: seq<Choice>)
    requires Sized(b)
  {
    IsRun(b, target, trace) && sel == trace[|trace| - 1] && Finished(b, target, sel)
  }

  /** Some finished run ends in this selection. */
  ghost predicate RunsTo(b: Board, target: int, sel: seq<Choice>)
    requires Sized(b)
  {
    exists trace :: EndsAt(b, target, trace, sel)
  }

  lemma RunsToIsLegal(b: Board, target: int, sel: seq<Choice>)
    requires Sized(b) && RunsTo(b, target, sel)
    ensures AllLegal(b, sel)
  {
    var trace :| EndsAt(b, target, trace, sel);
    RunIsLegal(b, target, trace, |trace| - 1);
  }

  lemma RunsToIsComplete(b: Board, target: int, sel: seq<Choice>)
    requires Sized(b) && RunsTo(b, target, sel)
    ensures Total(sel) <= target <==> Feasible(b, target)
  {
    var trace :| EndsAt(b, target, trace, sel);
    GreedyIsComplete(b, target, trace);
  }

  // ----- the code -----

  /** A cancellation flag that can rise at any check and never falls. */
  class Context {
    var cancelled: bool

    method Err() returns (err: bool)
      modifies this
      ensures err == cancelled
      ensures old(cancelled) ==> cancelled
    {
      if * {
        cancelled := true;
      }
      err := cancelled;
    }
  }

  /** (i, k) is the best of the moves before (p, q); i < 0 when there is none. */
  ghost predicate BestBefore(b: Board, sel: seq<Choice>, i: int, k: int, p: int, q: int)
    requires Sized(b) && |sel| == |b.locked|
  {
    if i < 0 then forall j, l :: Earlier(j, l, p, q) ==> !Move(b, sel, j, l)
    else
      && Move(b, sel, i, k) && Earlier(i, k, p, q)
      && forall j, l :: Move(b, sel, j, l) && Earlier(j, l, p, q) ==>
           && Weight(b, sel, i, k) <= Weight(b, sel, j, l)
           && (Earlier(j, l, i, k) ==> Weight(b, sel, i, k) < Weight(b, sel, j, l))
  }

  /** The inner loop over the proposals of one unprotected group. */
  method ScanOffers(b: Board, sel: seq<Choice>, p: int, i0: int, k0: int) returns (i: int, k: int)
    requires Sized(b) && |sel| == |b.locked| && 0 <= p < |sel| && !b.locked[p]
    requires BestBefore(b, sel, i0, k0, p, 0)
    ensures BestBefore(b, sel, i, k, p, |b.offers[p]|)
  {
    i, k := i0, k0;
    for q := 0 to |b.offers[p]|
      invariant BestBefore(b, sel, i, k, p, q)
    {
      var v := b.offers[p][q];
      var loss := ActionLoss(b.scores[p], v.action);
      if loss.Some? && v.tokens < sel[p].tokens {
        assert Move(b, sel, p, q);
        if i < 0 || Weight(b, sel, p, q) < Weight(b, sel, i, k) {
          i, k := p, q;
        }
      }
      assert forall j, l :: Earlier(j, l, p, q + 1) <==> Earlier(j, l, p, q) || (j == p && l == q);
    }
  }

  lemma NextGroup(b: Board, sel: seq<Choice>, i: int, k: int, p: int)
    requires Sized(b) && |sel| == |b.locked| && 0 <= p < |sel|
    requires if b.locked[p] then BestBefore(b, sel, i, k, p, 0) else BestBefore(b, sel, i, k, p, |b.offers[p]|)
    ensures BestBefore(b, sel, i, k, p + 1, 0)
  {
    var q := if b.locked[p] then 0 else |b.offers[p]|;
    assert forall j, l :: Move(b, sel, j, l) && Earlier(j, l, p + 1, 0) ==> Earlier(j, l, p, q);
  }

  method FindBest(b: Board, sel: seq<Choice>) returns (i: int, k: int)
    requires Sized(b) && |sel| == |b.locked|
    ensures if i < 0 then Stuck(b, sel) else Best(b, sel, i, k)
    ensures if i < 0 then forall j, l :: !Saves(b, sel, j, l) else Lightest(b, sel, i, k)
  {
    i, k := -1, -1;
    for p := 0 to |sel|
      invariant BestBefore(b, sel, i, k, p, 0)
    {
      if !b.locked[p] {
        i, k := ScanOffers(b, sel, p, i, k);
      }
      NextGroup(b, sel, i, k, p);
    }
    assert forall j, l :: Move(b, sel, j, l) ==> Earlier(j, l, |sel|, 0);
    if i >= 0 {
      BestIsLightest(b, sel, i, k);
    } else {
      assert forall j, l :: Saves(b, sel, j, l) ==> Move(b, sel, j, l);
    }
  }

  lemma RunGrows(b: Board, target: int, trace: seq<seq<Choice>>, next: seq<Choice>)
    requires Sized(b) && IsRun(b, target, trace)
    requires Total(trace[|trace| - 1]) > target && Step(b, trace[|trace| - 1], next)
    ensures IsRun(b, target, trace + [next])
  {
    var longer := trace + [next];
    forall t | 0 <= t < |longer| - 1
      ensures TurnAt(b, target, longer, t)
    {
      assert longer[t] == trace[t];
      if t < |trace| - 1 {
        assert TurnAt(b, target, trace, t) && longer[t + 1] == trace[t + 1];
      }
    }
  }

  /** The loop: it runs to its end, or stops because the context was cancelled. */
  method Reduce(b: Board, target: int, ctx: Context) returns (r: Option<seq<Choice>>, ghost trace: seq<seq<Choice>>)
    requires Sized(b)
    modifies ctx
    ensures IsRun(b, target, trace)
    ensures r.Some? ==> r.value == trace[|trace| - 1] && Finished(b, target, r.value)
    ensures r.None? ==> ctx.cancelled
    ensures old(ctx.cancelled) ==> ctx.cancelled
  {
    var selected := b.base;
    trace := [selected];
    var total := Total(selected);
    while total > target
      invariant IsRun(b, target, trace) && selected == trace[|trace| - 1]
      invariant total == Total(selected)
      invariant old(ctx.cancelled) ==> ctx.cancelled
      decreases total
    {
      var cancelled := ctx.Err();
      if cancelled {
        return None, trace;
      }
      var i, k := FindBest(b, selected);
      if i < 0 {
        break;
      }
      var best := Taken(b, i, k);
      TotalUpdate(selected, i, best);
      ghost var next := selected[i := best];
      assert Step(b, selected, next);
      RunGrows(b, target, trace, next);
      total := total - (selected[i].tokens - best.tokens);
      selected := selected[i := best];
      trace := trace + [selected];
    }
    return Some(selected), trace;
  }
}
