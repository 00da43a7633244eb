/** `assemble` of compact/selection.go: the choices go back into transcript order. */
module Assembly {
  import opened Transcript
  import opened Groups
  import opened Partitions
  import opened Scores
  import opened Representations
  import opened Greedy

  /** `groupMessages` of compact/engine.go. */
  function GroupMessages(messages: seq<Message>, indices: seq<int>): (out: seq<Message>)
    requires InRange(indices, |messages|)
    ensures |out| == |indices|
  {
    seq(|indices|, k requires 0 <= k < |indices| => messages[indices[k]])
  }

  /** The message a choice puts in the place of member `k`; None when the group is dropped. */
  function Slot(c: Choice, k: int): Option<Message>
    requires c.messages != [] ==> 0 <= k < |c.messages|
  {
    if c.messages == [] then None else Some(c.messages[k])
  }

  /** A choice drops its group or has one message for each member, under the member's id. */
  ghost predicate Replaces(messages: seq<Message>, indices: seq<int>, c: Choice)
    requires InRange(indices, |messages|)
  {
    c.messages != [] ==>
      |c.messages| == |indices| && forall k :: 0 <= k < |indices| ==> c.messages[k].id == messages[indices[k]].id
  }

  /** Groups that partition a transcript with distinct ids, and one fitting choice for each. */
  ghost predicate Assemblable(messages: seq<Message>, groups: seq<Group>, sel: seq<Choice>) {
    && |sel| == |groups|
    && (forall i, j :: 0 <= i < j < |messages| ==> messages[i].id != messages[j].id)
    && IsPartition(IndexLists(groups), |messages|)
    && (forall g :: 0 <= g < |groups| ==> InRange(groups[g].indices, |messages|))
    && (forall g :: 0 <= g < |groups| ==> Replaces(messages, groups[g].indices, sel[g]))
  }

  function IndexLists(groups: seq<Group>): (lists: seq<seq<int>>)
    ensures |lists| == |groups| && forall g :: 0 <= g < |groups| ==> lists[g] == groups[g].indices
  {
    seq(|groups|, g requires 0 <= g < |groups| => groups[g].indices)
  }

  /** `picked[i]` is what the choices put in the place of message `i`. */
  ghost predicate Spliced(groups: seq<Group>, sel: seq<Choice>, picked: seq<Option<Message>>) {
    && |sel| == |groups|
    && forall g, k :: 0 <= g < |groups| && 0 <= k < |groups[g].indices| ==>
         && 0 <= groups[g].indices[k] < |picked|
         && (sel[g].messages != [] ==> k < |sel[g].messages|)
         && picked[groups[g].indices[k]] == Slot(sel[g], k)
  }

  /** The messages that are there, in order. */
  function Present(picked: seq<Option<Message>>): seq<Message> {
    if picked == [] then []
    else Present(picked[..|picked| - 1]) + match picked[|picked| - 1] case Some(m) => [m] case None => []
  }

  // ----- the map from ids to chosen messages -----

  function Lookup(byID: map<string, Message>, id: string): Option<Message> {
    if id in byID then Some(byID[id]) else None
  }

  function AddAll(byID: map<string, Message>, messages: seq<Message>): map<string, Message> {
    if messages == [] then byID
    else AddAll(byID, messages[..|messages| - 1])[messages[|messages| - 1].id := messages[|messages| - 1]]
  }

  function ByGroups(sel: seq<Choice>, h: nat): map<string, Message>
    requires h <= |sel|
  {
    if h == 0 then map[] else AddAll(ByGroups(sel, h - 1), sel[h - 1].messages)
  }

  function Picked(messages: seq<Message>, byID: map<string, Message>): (picked: seq<Option<Message>>)
    ensures |picked| == |messages|
  {
    seq(|messages|, i requires 0 <= i < |messages| => Lookup(byID, messages[i].id))
  }

  lemma {:induction false} AddAllOther(byID: map<string, Message>, messages: seq<Message>, id: string)
    requires forall k :: 0 <= k < |messages| ==> messages[k].id != id
    ensures Lookup(AddAll(byID, messages), id) == Lookup(byID, id)
  {
    if messages != [] {
      AddAllOther(byID, messages[..|messages| - 1], id);
    }
  }

  lemma {:induction false} AddAllOwn(byID: map<string, Message>, messages: seq<Message>, k: nat)
    requires k < |messages| && forall j :: k < j < |messages| ==> messages[j].id != messages[k].id
    ensures Lookup(AddAll(byID, messages), messages[k].id) == Some(messages[k])
  {
    if k < |messages| - 1 {
      AddAllOwn(byID, messages[..|messages| - 1], k);
    }
  }

  lemma MembersDiffer(messages: seq<Message>, groups: seq<Group>, sel: seq<Choice>, g: int, k: int, h: int, l: int)
    requires Assemblable(messages, groups, sel)
    requires 0 <= g < |groups| && 0 <= k < |groups[g].indices| && 0 <= h < |groups| && 0 <= l < |groups[h].indices|
    requires (g, k) != (h, l)
    ensures messages[groups[g].indices[k]].id != messages[groups[h].indices[l]].id
  {
    var lists := IndexLists(groups);
    var i, j := groups[g].indices[k], groups[h].indices[l];
    assert i in lists[g] && j in lists[h];
    assert Ascending(lists[g]);
    assert i != j;
  }

  lemma {:induction false} ByGroupsLookup(messages: seq<Message>, groups: seq<Group>, sel: seq<Choice>, h: nat, g: int,
                                          k: int)
    requires Assemblable(messages, groups, sel) && h <= |groups|
    requires 0 <= g < |groups| && 0 <= k < |groups[g].indices|
    ensures Lookup(ByGroups(sel, h), messages[groups[g].indices[k]].id) == if g < h then Slot(sel[g], k) else None
  {
    if h > 0 {
      var last := sel[h - 1].messages;
      ByGroupsLookup(messages, groups, sel, h - 1, g, k);
      assert Replaces(messages, groups[h - 1].indices, sel[h - 1]);
      forall l | 0 <= l < |last| && (h - 1, l) != (g, k)
        ensures last[l].id != messages[groups[g].indices[k]].id
      {
        MembersDiffer(messages, groups, sel, g, k, h - 1, l);
      }
      if g == h - 1 && last != [] {
        AddAllOwn(ByGroups(sel, h - 1), last, k);
      } else {
        AddAllOther(ByGroups(sel, h - 1), last, messages[groups[g].indices[k]].id);
      }
    }
  }

  /** Looking every message up by its id puts each choice in its place. */
  lemma PickedIsSpliced(messages: seq<Message>, groups: seq<Group>, sel: seq<Choice>)
    requires Assemblable(messages, groups, sel)
    ensures Spliced(groups, sel, Picked(messages, ByGroups(sel, |sel|)))
  {
    forall g, k | 0 <= g < |groups| && 0 <= k < |groups[g].indices|
      ensures 0 <= groups[g].indices[k] < |messages|
      ensures sel[g].messages != [] ==> k < |sel[g].messages|
      ensures Picked(messages, ByGroups(sel, |sel|))[groups[g].indices[k]] == Slot(sel[g], k)
    {
      assert InRange(groups[g].indices, |messages|) && Replaces(messages, groups[g].indices, sel[g]);
      ByGroupsLookup(messages, groups, sel, |sel|, g, k);
    }
  }

  // ----- token conservation -----

  function SlotCost(env: Env, slot: Option<Message>): nat {
    match slot case Some(m) => env.cost(m) case None => 0
  }

  function SlotCosts(env: Env, picked: seq<Option<Message>>): (costs: seq<nat>)
    ensures |costs| == |picked|
  {
    seq(|picked|, i requires 0 <= i < |picked| => SlotCost(env, picked[i]))
  }

  lemma {:induction false} PresentCost(env: Env, picked: seq<Option<Message>>)
    ensures Count(env, Present(picked)) == Sum(SlotCosts(env, picked))
  {
    if picked != [] {
      var front, last := picked[..|picked| - 1], picked[|picked| - 1];
      PresentCost(env, front);
      assert SlotCosts(env, picked)[..|picked| - 1] == SlotCosts(env, front);
      match last {
        case Some(m) =>
          CountConcat(env, Present(front), [m]);
        case None =>
          assert Present(front) + [] == Present(front);
      }
    }
  }

  lemma {:induction false} PartCost(env: Env, costs: seq<nat>, part: seq<int>, messages: seq<Message>)
    requires |messages| == |part|
    requires forall k :: 0 <= k < |part| ==> 0 <= part[k] < |costs| && costs[part[k]] == env.cost(messages[k])
    ensures SumBelow(costs, part, |costs|) == Count(env, messages)
  {
    if part != [] {
      PartCost(env, costs, part[1..], messages[1..]);
    }
  }

  lemma {:induction false} DroppedCost(costs: seq<nat>, part: seq<int>)
    requires forall k :: 0 <= k < |part| ==> 0 <= part[k] < |costs| && costs[part[k]] == 0
    ensures SumBelow(costs, part, |costs|) == 0
  {
    if part != [] {
      DroppedCost(costs, part[1..]);
    }
  }

  lemma GroupCost(env: Env, groups: seq<Group>, sel: seq<Choice>, picked: seq<Option<Message>>, g: int)
    requires Spliced(groups, sel, picked) && 0 <= g < |groups|
    requires sel[g].tokens == Count(env, sel[g].messages)
    requires sel[g].messages != [] ==> |sel[g].messages| == |groups[g].indices|
    ensures SumBelow(SlotCosts(env, picked), groups[g].indices, |picked|) == sel[g].tokens
  {
    var costs, part := SlotCosts(env, picked), groups[g].indices;
    assert forall k :: 0 <= k < |part| ==> picked[part[k]] == Slot(sel[g], k);
    if sel[g].messages == [] {
      DroppedCost(costs, part);
    } else {
      PartCost(env, costs, part, sel[g].messages);
    }
  }

  lemma {:induction false} PartsCost(costs: seq<nat>, parts: seq<seq<int>>, sel: seq<Choice>)
    requires |parts| == |sel|
    requires forall g :: 0 <= g < |sel| ==> SumBelow(costs, parts[g], |costs|) == sel[g].tokens
    ensures SumParts(costs, parts, |costs|) == Total(sel)
  {
    if parts != [] {
      PartsCost(costs, parts[1..], sel[1..]);
    }
  }

  /** The running total is the recount of the assembled transcript, although groups interleave. */
  lemma TokensConserved(env: Env, messages: seq<Message>, groups: seq<Group>, sel: seq<Choice>,
                        picked: seq<Option<Message>>)
    requires Assemblable(messages, groups, sel) && Spliced(groups, sel, picked) && |picked| == |messages|
    requires forall g :: 0 <= g < |sel| ==> sel[g].tokens == Count(env, sel[g].messages)
    ensures Count(env, Present(picked)) == Total(sel)
  {
    var costs := SlotCosts(env, picked);
    PresentCost(env, picked);
    PartitionSum(costs, IndexLists(groups));
    forall g | 0 <= g < |sel|
      ensures SumBelow(costs, IndexLists(groups)[g], |costs|) == sel[g].tokens
    {
      assert Replaces(messages, groups[g].indices, sel[g]);
      GroupCost(env, groups, sel, picked, g);
    }
    PartsCost(costs, IndexLists(groups), sel);
  }

  // ----- decisions -----

  datatype Decision = Decision(groupID: string, messageIDs: seq<string>, action: string, reason: string,
                               score: Option<Score>)

  function DecisionReason(g: Group, s: Score): string {
    if g.protected then g.reason
    else if s.loss.None? && s.keep.None? then "budget selection using legacy probability gates"
    else if s.keep.Some? then "call/result retention scores with 0.5 threshold"
    else "budget selection using per-action loss estimates"
  }

  function DecisionFor(messages: seq<Message>, g: Group, c: Choice, s: Score): Decision
    requires InRange(g.indices, |messages|)
  {
    Decision(g.id, seq(|g.indices|, k requires 0 <= k < |g.indices| => messages[g.indices[k]].id), c.action,
             DecisionReason(g, s), if g.protected then None else Some(s))
  }

  /** One decision a group, in group order. */
  function Decisions(messages: seq<Message>, groups: seq<Group>, sel: seq<Choice>,
                     scores: map<string, Score>): (decisions: seq<Decision>)
    requires |sel| == |groups| && forall g :: 0 <= g < |groups| ==> InRange(groups[g].indices, |messages|)
    ensures |decisions| == |groups|
  {
    seq(|groups|, g requires 0 <= g < |groups| =>
      DecisionFor(messages, groups[g], sel[g], ScoreOf(scores, groups[g].id)))
  }

  // ----- the code -----

  method AddMessages(byID: map<string, Message>, messages: seq<Message>) returns (more: map<string, Message>)
    ensures more == AddAll(byID, messages)
  {
    more := byID;
    for k := 0 to |messages|
      invariant more == AddAll(byID, messages[..k])
    {
      assert messages[..k + 1][..k] == messages[..k];
      more := more[messages[k].id := messages[k]];
    }
    assert messages[..|messages|] == messages;
  }

  method InOrder(messages: seq<Message>, byID: map<string, Message>) returns (out: seq<Message>)
    ensures out == Present(Picked(messages, byID))
  {
    out := [];
    ghost var picked := Picked(messages, byID);
    for i := 0 to |messages|
      invariant out == Present(picked[..i])
    {
      assert picked[..i + 1][..i] == picked[..i];
      if messages[i].id in byID {
        out := out + [byID[messages[i].id]];
      }
    }
    assert picked[..|messages|] == picked;
  }

  method Assemble(messages: seq<Message>, groups: seq<Group>, sel: seq<Choice>, scores: map<string, Score>)
    returns (out: seq<Message>, decisions: seq<Decision>)
    requires |sel| == |groups| && forall g :: 0 <= g < |groups| ==> InRange(groups[g].indices, |messages|)
    ensures out == Present(Picked(messages, ByGroups(sel, |sel|)))
    ensures decisions == Decisions(messages, groups, sel, scores)
  {
    var byID: map<string, Message> := map[];
    decisions := [];
    for i := 0 to |groups|
      invariant byID == ByGroups(sel, i)
      invariant decisions == Decisions(messages, groups, sel, scores)[..i]
    {
      decisions := decisions + [DecisionFor(messages, groups[i], sel[i], ScoreOf(scores, groups[i].id))];
      byID := AddMessages(byID, sel[i].messages);
    }
    out := InOrder(messages, byID);
  }
}
