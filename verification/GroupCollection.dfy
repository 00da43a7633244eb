/** `collectGroups` and `assembleGroups` of compact/groups.go, in the source's imperative form. */
module GroupCollection {
  import opened Text
  import opened Transcript
  import opened UnionFind
  import opened Groups

  // ----- validation: the first loop -----

  /** The map sends the id of each of the first `n` messages to its position, and holds nothing else. */
  ghost predicate IdIndex(ids: map<string, int>, messages: seq<Message>, n: int)
    requires 0 <= n <= |messages|
  {
    && (forall s :: s in ids ==> 0 <= ids[s] < n && messages[ids[s]].id == s)
    && (forall j :: 0 <= j < n ==> messages[j].id in ids && ids[messages[j].id] == j)
  }

  ghost predicate ResultIndex(results: map<string, int>, messages: seq<Message>, n: int)
    requires 0 <= n <= |messages|
  {
    && (forall s :: s in results ==> s != "" && 0 <= results[s] < n && messages[results[s]].toolCallID == s)
    && (forall j :: 0 <= j < n && messages[j].toolCallID != "" ==>
          messages[j].toolCallID in results && results[messages[j].toolCallID] == j)
  }

  ghost predicate CallIndex(calls: map<string, int>, messages: seq<Message>, n: int)
    requires 0 <= n <= |messages|
  {
    && (forall s :: s in calls ==> 0 <= calls[s] < n && HasCall(messages[calls[s]], s))
    && (forall j, s :: 0 <= j < n && HasCall(messages[j], s) ==> s in calls && calls[s] == j)
  }

  lemma CallsAreCalled(calls: map<string, int>, messages: seq<Message>, n: int)
    requires 0 <= n <= |messages| && CallIndex(calls, messages, n)
    ensures calls.Keys == Called(messages[..n])
  {
    forall s
      ensures s in calls <==> s in Called(messages[..n])
    {
      if s in calls {
        assert messages[calls[s]] in messages[..n];
      }
      if s in Called(messages[..n]) {
        var m :| m in messages[..n] && s in CallIds(m.toolCalls);
        var j :| 0 <= j < n && messages[j] == m;
        assert HasCall(messages[j], s);
      }
    }
  }

  function CallMap(calls: seq<ToolCall>, i: int): map<string, int> {
    map s | s in CallIds(calls) :: i
  }

  lemma CallMapGrows(known: map<string, int>, calls: map<string, int>, tool: seq<ToolCall>, k: int, i: int)
    requires 0 <= k < |tool| && calls == known + CallMap(tool[..k], i)
    ensures tool[k].id in calls <==> tool[k].id in known.Keys || tool[k].id in CallIds(tool[..k])
    ensures calls[tool[k].id := i] == known + CallMap(tool[..k + 1], i)
  {
    assert tool[..k + 1] == tool[..k] + [tool[k]];
    assert CallIds(tool[..k + 1]) == CallIds(tool[..k]) + {tool[k].id};
  }

  method ScanCalls(validJson: string -> bool, tool: seq<ToolCall>, i: int, known: map<string, int>)
    returns (ok: bool, calls: map<string, int>)
    ensures ok <==> FreshCalls(validJson, tool, known.Keys)
    ensures ok ==> calls == known + CallMap(tool, i)
  {
    calls := known;
    var k := 0;
    while k < |tool|
      invariant 0 <= k <= |tool|
      invariant calls == known + CallMap(tool[..k], i)
      invariant forall j :: 0 <= j < k ==> FreshCall(validJson, tool, j, known.Keys)
    {
      CallMapGrows(known, calls, tool, k, i);
      if !ValidCall(validJson, tool[k]) || tool[k].id in calls {
        assert !FreshCall(validJson, tool, k, known.Keys);
        return false, calls;
      }
      calls := calls[tool[k].id := i];
      k := k + 1;
    }
    assert tool[..k] == tool;
    ok := true;
  }

  lemma CallIndexGrows(calls: map<string, int>, messages: seq<Message>, i: int, grown: map<string, int>)
    requires 0 <= i < |messages| && CallIndex(calls, messages, i)
    requires grown == calls + CallMap(messages[i].toolCalls, i)
    requires forall s :: s in CallIds(messages[i].toolCalls) ==> s !in calls
    ensures CallIndex(grown, messages, i + 1)
  {
    forall s | s in grown
      ensures 0 <= grown[s] < i + 1 && HasCall(messages[grown[s]], s)
    {
      if s in CallIds(messages[i].toolCalls) {
        assert grown[s] == i;
      } else {
        assert s in calls && grown[s] == calls[s];
      }
    }
    forall j, s | 0 <= j < i + 1 && HasCall(messages[j], s)
      ensures s in grown && grown[s] == j
    {
      if j < i {
        assert s in calls && calls[s] == j;
      }
    }
  }

  lemma FreshIdsAreNew(validJson: string -> bool, calls: seq<ToolCall>, taken: set<string>)
    requires FreshCalls(validJson, calls, taken)
    ensures forall s :: s in CallIds(calls) ==> s !in taken
  {
    forall s | s in CallIds(calls)
      ensures s !in taken
    {
      var k :| 0 <= k < |calls| && calls[k].id == s;
      assert FreshCall(validJson, calls, k, taken);
    }
  }

  method ScanHeader(messages: seq<Message>, i: int, ids: map<string, int>, results: map<string, int>) returns (ok: bool)
    requires 0 <= i < |messages| && IdIndex(ids, messages, i) && ResultIndex(results, messages, i)
    ensures ok <==>
      && ValidHeader(messages[i])
      && (forall j :: 0 <= j < i ==> messages[j].id != messages[i].id)
      && (messages[i].toolCallID != "" ==> forall j :: 0 <= j < i ==> messages[j].toolCallID != messages[i].toolCallID)
  {
    var m := messages[i];
    if !ValidMessageID(m.id) {
      return false;
    }
    if m.id in ids {
      assert messages[ids[m.id]].id == m.id;
      return false;
    }
    if !ValidUtf8(m.text) || !ValidUtf8(m.group) || !ValidUtf8(m.toolCallID) {
      return false;
    }
    if !KnownRole(m.role) {
      return false;
    }
    if IsTool(m) != (m.toolCallID != "") || (m.toolCalls != [] && m.role != "assistant") {
      return false;
    }
    if m.toolCallID != "" && m.toolCallID in results {
      assert messages[results[m.toolCallID]].toolCallID == m.toolCallID;
      return false;
    }
    return true;
  }

  lemma IndexesGrow(ids: map<string, int>, results: map<string, int>, messages: seq<Message>, i: int)
    requires 0 <= i < |messages| && IdIndex(ids, messages, i) && ResultIndex(results, messages, i)
    requires messages[i].id !in ids && messages[i].toolCallID !in results
    ensures IdIndex(ids[messages[i].id := i], messages, i + 1)
    ensures messages[i].toolCallID != "" ==> ResultIndex(results[messages[i].toolCallID := i], messages, i + 1)
    ensures messages[i].toolCallID == "" ==> ResultIndex(results, messages, i + 1)
  {
  }

  method ScanMessage(validJson: string -> bool, messages: seq<Message>, i: int,
                     ids: map<string, int>, calls: map<string, int>, results: map<string, int>)
    returns (ok: bool, ids': map<string, int>, calls': map<string, int>, results': map<string, int>)
    requires 0 <= i < |messages|
    requires IdIndex(ids, messages, i) && CallIndex(calls, messages, i) && ResultIndex(results, messages, i)
    ensures ok <==> MessageFits(validJson, messages, i)
    ensures ok ==>
      IdIndex(ids', messages, i + 1) && CallIndex(calls', messages, i + 1) && ResultIndex(results', messages, i + 1)
  {
    var m := messages[i];
    ids', calls', results' := ids, calls, results;
    ok := ScanHeader(messages, i, ids, results);
    if !ok {
      return;
    }
    assert m.id !in ids && m.toolCallID !in results;
    ids' := ids[m.id := i];
    if m.toolCallID != "" {
      results' := results[m.toolCallID := i];
    }
    IndexesGrow(ids, results, messages, i);
    CallsAreCalled(calls, messages, i);
    ok, calls' := ScanCalls(validJson, m.toolCalls, i, calls);
    if ok {
      FreshIdsAreNew(validJson, m.toolCalls, calls.Keys);
      CallIndexGrows(calls, messages, i, calls');
    }
  }

  method ScanMessages(validJson: string -> bool, messages: seq<Message>)
    returns (ok: bool, ids: map<string, int>, calls: map<string, int>, results: map<string, int>)
    ensures ok <==> AllFit(validJson, messages, |messages|)
    ensures ok ==> IdIndex(ids, messages, |messages|) && CallIndex(calls, messages, |messages|)
    ensures ok ==> ResultIndex(results, messages, |messages|)
  {
    ok, ids, calls, results := true, map[], map[], map[];
    for i := 0 to |messages|
      invariant ok && AllFit(validJson, messages, i)
      invariant IdIndex(ids, messages, i) && CallIndex(calls, messages, i) && ResultIndex(results, messages, i)
    {
      ok, ids, calls, results := ScanMessage(validJson, messages, i, ids, calls, results);
      if !ok {
        return;
      }
    }
  }

  // ----- joining: the second and third loop -----

  /** The array is a forest that has merged only what the edges force. */
  ghost predicate Sound(parents: seq<int>, f: Forest, req: Request) {
    |parents| == |req.messages| && Valid(parents, f) && Forced(f.root, Edges(req))
  }

  ghost predicate Coarser(fine: seq<int>, coarse: seq<int>) {
    |fine| == |coarse| &&
    forall i, j :: 0 <= i < |fine| && 0 <= j < |fine| && fine[i] == fine[j] ==> coarse[i] == coarse[j]
  }

  method JoinEdge(req: Request, parents: array<int>, a: int, b: int, ghost f: Forest) returns (ghost g: Forest)
    requires Sound(parents[..], f, req)
    requires 0 <= a < |req.messages| && 0 <= b < |req.messages| && Edge(req, a, b)
    modifies parents
    ensures Sound(parents[..], g, req)
    ensures Coarser(f.root, g.root) && g.root[a] == g.root[b]
  {
    MergeIsForced(f.root, Edges(req), a, b);
    g := Join(parents, a, b, f);
  }

  /** The first `k` messages share a root with everything they depend on. */
  ghost predicate DependsJoined(messages: seq<Message>, root: seq<int>, k: int)
    requires 0 <= k <= |messages| == |root|
  {
    forall i, j :: 0 <= i < k && 0 <= j < |messages| && messages[j].id in messages[i].dependsOn ==> root[i] == root[j]
  }

  ghost predicate LabelsJoined(messages: seq<Message>, root: seq<int>, k: int)
    requires 0 <= k <= |messages| == |root|
  {
    forall i, j :: 0 <= i < k && 0 <= j < k && messages[i].group != "" && messages[i].group == messages[j].group ==>
      root[i] == root[j]
  }

  ghost predicate LabelIndex(named: map<string, int>, messages: seq<Message>, root: seq<int>, k: int)
    requires 0 <= k <= |messages| == |root|
  {
    && (forall s :: s in named ==> 0 <= named[s] < k && messages[named[s]].group == s)
    && (forall i :: 0 <= i < k && messages[i].group != "" ==>
          messages[i].group in named && root[i] == root[named[messages[i].group]])
  }

  lemma CoarserKeeps(messages: seq<Message>, fine: seq<int>, coarse: seq<int>, k: int, named: map<string, int>)
    requires 0 <= k <= |messages| == |fine| && Coarser(fine, coarse)
    ensures DependsJoined(messages, fine, k) ==> DependsJoined(messages, coarse, k)
    ensures LabelIndex(named, messages, fine, k) ==> LabelIndex(named, messages, coarse, k)
  {
  }

  lemma LabelIndexJoins(messages: seq<Message>, root: seq<int>, k: int, named: map<string, int>)
    requires 0 <= k <= |messages| == |root| && LabelIndex(named, messages, root, k)
    ensures LabelsJoined(messages, root, k)
  {
  }

  method LinkDependencies(req: Request, i: int, ids: map<string, int>, parents: array<int>, ghost f: Forest)
    returns (ok: bool, ghost g: Forest)
    requires 0 <= i < |req.messages| && IdIndex(ids, req.messages, |req.messages|)
    requires Sound(parents[..], f, req)
    modifies parents
    ensures ok <==> DependenciesResolve(req.messages, i)
    ensures Sound(parents[..], g, req) && Coarser(f.root, g.root)
    ensures ok ==> forall j :: 0 <= j < |req.messages| && req.messages[j].id in req.messages[i].dependsOn ==>
      g.root[i] == g.root[j]
  {
    var deps := req.messages[i].dependsOn;
    g := f;
    for d := 0 to |deps|
      invariant Sound(parents[..], g, req) && Coarser(f.root, g.root)
      invariant forall e :: 0 <= e < d ==> deps[e] in ids && g.root[i] == g.root[ids[deps[e]]]
    {
      var dep := deps[d];
      if dep !in ids {
        assert dep in req.messages[i].dependsOn;
        return false, g;
      }
      assert req.messages[ids[dep]].id in deps;
      g := JoinEdge(req, parents, i, ids[dep], g);
    }
    ok := true;
    forall dep | dep in deps
      ensures exists j :: 0 <= j < |req.messages| && req.messages[j].id == dep
    {
      assert req.messages[ids[dep]].id == dep;
    }
  }

  lemma LabelIndexGrows(messages: seq<Message>, root: seq<int>, i: int, named: map<string, int>)
    requires 0 <= i < |messages| == |root| && LabelIndex(named, messages, root, i)
    requires messages[i].group != "" && messages[i].group in named ==> root[i] == root[named[messages[i].group]]
    ensures messages[i].group == "" ==> LabelIndex(named, messages, root, i + 1)
    ensures messages[i].group != "" ==> LabelIndex(named[messages[i].group := i], messages, root, i + 1)
  {
  }

  method LinkLabel(req: Request, i: int, named: map<string, int>, parents: array<int>, ghost f: Forest)
    returns (named': map<string, int>, ghost g: Forest)
    requires 0 <= i < |req.messages| && Sound(parents[..], f, req)
    requires LabelIndex(named, req.messages, f.root, i)
    modifies parents
    ensures Sound(parents[..], g, req) && Coarser(f.root, g.root)
    ensures LabelIndex(named', req.messages, g.root, i + 1)
  {
    var m := req.messages[i];
    g, named' := f, named;
    if m.group != "" {
      if m.group in named {
        g := JoinEdge(req, parents, i, named[m.group], f);
      }
      named' := named[m.group := i];
    }
    CoarserKeeps(req.messages, f.root, g.root, i, named);
    LabelIndexGrows(req.messages, g.root, i, named);
  }

  ghost predicate Linking(messages: seq<Message>, root: seq<int>, k: int, named: map<string, int>)
    requires 0 <= k <= |messages| == |root|
  {
    DependsJoined(messages, root, k) && LabelIndex(named, messages, root, k)
  }

  method LinkMessage(req: Request, i: int, ids: map<string, int>, named: map<string, int>, parents: array<int>,
                     ghost f: Forest)
    returns (ok: bool, named': map<string, int>, ghost g: Forest)
    requires 0 <= i < |req.messages| && IdIndex(ids, req.messages, |req.messages|)
    requires Sound(parents[..], f, req) && Linking(req.messages, f.root, i, named)
    modifies parents
    ensures ok <==> DependenciesResolve(req.messages, i)
    ensures Sound(parents[..], g, req)
    ensures ok ==> Linking(req.messages, g.root, i + 1, named')
  {
    ok, g := LinkDependencies(req, i, ids, parents, f);
    named' := named;
    if ok {
      CoarserKeeps(req.messages, f.root, g.root, i, named);
      assert DependsJoined(req.messages, g.root, i + 1);
      ghost var middle := g.root;
      named', g := LinkLabel(req, i, named, parents, g);
      CoarserKeeps(req.messages, middle, g.root, i + 1, named);
    }
  }

  method LinkDeclared(req: Request, ids: map<string, int>, parents: array<int>, ghost f: Forest)
    returns (ok: bool, ghost g: Forest)
    requires IdIndex(ids, req.messages, |req.messages|)
    requires Sound(parents[..], f, req)
    modifies parents
    ensures ok <==> forall i :: 0 <= i < |req.messages| ==> DependenciesResolve(req.messages, i)
    ensures Sound(parents[..], g, req)
    ensures ok ==>
      DependsJoined(req.messages, g.root, |req.messages|) && LabelsJoined(req.messages, g.root, |req.messages|)
  {
    g := f;
    ok := true;
    var named: map<string, int> := map[];
    for i := 0 to |req.messages|
      invariant ok && forall k :: 0 <= k < i ==> DependenciesResolve(req.messages, k)
      invariant Sound(parents[..], g, req)
      invariant Linking(req.messages, g.root, i, named)
    {
      ok, named, g := LinkMessage(req, i, ids, named, parents, g);
      if !ok {
        return;
      }
    }
    LabelIndexJoins(req.messages, g.root, |req.messages|, named);
  }

  ghost predicate CallsJoined(calls: map<string, int>, results: map<string, int>, root: seq<int>, done: set<string>) {
    forall id :: id in done ==>
      && id in calls && id in results && 0 <= calls[id] < |root| && 0 <= results[id] < |root|
      && root[calls[id]] == root[results[id]]
  }

  ghost predicate CallsLinked(req: Request, calls: map<string, int>, results: map<string, int>, fine: seq<int>,
                              root: seq<int>, done: set<string>)
  {
    && Coarser(fine, root)
    && (forall id :: id in done ==> id in calls && id in results && calls[id] < results[id])
    && (!req.individually ==> CallsJoined(calls, results, root, done))
  }

  /** The loop body: a result without an earlier call is an error. */
  method LinkCall(req: Request, id: string, calls: map<string, int>, results: map<string, int>,
                  parents: array<int>, ghost f: Forest, ghost fine: seq<int>, ghost done: set<string>)
    returns (ok: bool, ghost g: Forest)
    requires CallIndex(calls, req.messages, |req.messages|) && ResultIndex(results, req.messages, |req.messages|)
    requires id in results
    requires Sound(parents[..], f, req) && CallsLinked(req, calls, results, fine, f.root, done)
    modifies parents
    ensures ok <==> id in calls && calls[id] < results[id]
    ensures Sound(parents[..], g, req)
    ensures ok ==> CallsLinked(req, calls, results, fine, g.root, done + {id})
  {
    g := f;
    ok := id in calls && calls[id] < results[id];
    if ok && !req.individually {
      g := JoinEdge(req, parents, calls[id], results[id], f);
    }
  }

  lemma NothingLinked(req: Request, calls: map<string, int>, results: map<string, int>, root: seq<int>)
    ensures CallsLinked(req, calls, results, root, root, {})
  {
  }

  lemma AllLinked(req: Request, calls: map<string, int>, results: map<string, int>, fine: seq<int>, root: seq<int>)
    requires CallsLinked(req, calls, results, fine, root, results.Keys)
    ensures forall id :: id in results ==> id in calls && calls[id] < results[id]
  {
  }

  /** The map of results is visited in any order. */
  method LinkCalls(req: Request, calls: map<string, int>, results: map<string, int>, parents: array<int>,
                   ghost f: Forest)
    returns (ok: bool, ghost g: Forest)
    requires CallIndex(calls, req.messages, |req.messages|) && ResultIndex(results, req.messages, |req.messages|)
    requires Sound(parents[..], f, req)
    modifies parents
    ensures ok <==> forall id :: id in results ==> id in calls && calls[id] < results[id]
    ensures Sound(parents[..], g, req)
    ensures ok ==> CallsLinked(req, calls, results, f.root, g.root, results.Keys)
  {
    ok, g := true, f;
    var remaining := results.Keys;
    ghost var done: set<string> := {};
    NothingLinked(req, calls, results, f.root);
    while remaining != {}
      invariant remaining <= results.Keys && done == results.Keys - remaining
      invariant Sound(parents[..], g, req) && CallsLinked(req, calls, results, f.root, g.root, done)
      invariant ok
      decreases remaining
    {
      var id :| id in remaining;
      ok, g := LinkCall(req, id, calls, results, parents, g, f.root, done);
      if !ok {
        return;
      }
      remaining, done := remaining - {id}, done + {id};
    }
    assert done == results.Keys;
    AllLinked(req, calls, results, f.root, g.root);
  }

  /** The checks on the result map say that every result follows its call. */
  lemma ResultsFollow(messages: seq<Message>, calls: map<string, int>, results: map<string, int>)
    requires CallIndex(calls, messages, |messages|) && ResultIndex(results, messages, |messages|)
    ensures (forall id :: id in results ==> id in calls && calls[id] < results[id])
      <==> forall i :: 0 <= i < |messages| ==> FollowsCall(messages, i)
  {
    if forall i :: 0 <= i < |messages| ==> FollowsCall(messages, i) {
      forall id | id in results
        ensures id in calls && calls[id] < results[id]
      {
        assert FollowsCall(messages, results[id]);
      }
    }
    if forall id :: id in results ==> id in calls && calls[id] < results[id] {
      forall i | 0 <= i < |messages|
        ensures FollowsCall(messages, i)
      {
        var id := messages[i].toolCallID;
        if id != "" {
          assert results[id] == i && HasCall(messages[calls[id]], id);
        }
      }
    }
  }

  /** With all three kinds of edges joined, the roots are exactly the linked classes. */
  lemma AllEdgesJoined(req: Request, calls: map<string, int>, results: map<string, int>, root: seq<int>)
    requires |root| == |req.messages|
    requires CallIndex(calls, req.messages, |req.messages|) && ResultIndex(results, req.messages, |req.messages|)
    requires DependsJoined(req.messages, root, |root|) && LabelsJoined(req.messages, root, |root|)
    requires !req.individually ==> CallsJoined(calls, results, root, results.Keys)
    ensures Respects(root, Edges(req))
  {
    forall e | e in Edges(req)
      ensures root[e.0] == root[e.1]
    {
      var a, b := req.messages[e.0], req.messages[e.1];
      if b.id !in a.dependsOn && !(a.group != "" && a.group == b.group) {
        var id := b.toolCallID;
        assert HasCall(req.messages[e.0], id);
        assert calls[id] == e.0 && results[id] == e.1;
      }
    }
  }

  // ----- assembleGroups -----

  ghost predicate PartialOk(req: Request, g: Group, upto: int)
    requires 0 <= upto <= |req.messages|
  {
    && g.indices != [] && Ascending(g.indices) && InRange(g.indices, upto)
    && g.id == req.messages[g.indices[0]].id
    && g.reason == MembersReason(req, g.indices)
    && g.protected == (g.reason != "")
  }

  /** Every message before `upto` is filed in the group at the position of its root. */
  ghost predicate Filed(root: seq<int>, groups: seq<Group>, positions: map<int, int>, upto: int)
    requires 0 <= upto <= |root|
  {
    && (forall r :: r in positions ==> 0 <= positions[r] < |groups|)
    && (forall r, r' :: r in positions && r' in positions && positions[r] == positions[r'] ==> r == r')
    && (forall k :: 0 <= k < upto ==>
          root[k] in positions && 0 <= positions[root[k]] < |groups| && k in groups[positions[root[k]]].indices)
    && (forall g, k :: 0 <= g < |groups| && k in groups[g].indices ==> 0 <= k < upto)
    && (forall g, k :: 0 <= g < |groups| && 0 <= k < upto && k in groups[g].indices ==>
          root[k] in positions && positions[root[k]] == g)
  }

  ghost predicate Partial(req: Request, root: seq<int>, groups: seq<Group>, positions: map<int, int>, upto: int)
    requires 0 <= upto <= |root| == |req.messages|
  {
    && (forall g :: 0 <= g < |groups| ==> PartialOk(req, groups[g], upto))
    && FirstsAscend(groups)
    && Filed(root, groups, positions, upto)
  }

  function Extended(g: Group, i: int, reason: string): Group {
    Group(g.id, g.indices + [i], g.protected || reason != "", if reason != "" then reason else g.reason)
  }

  lemma ExtendedOk(req: Request, g: Group, i: int)
    requires 0 <= i < |req.messages|
    requires (g.indices == [] && !g.protected && g.reason == "" && g.id == req.messages[i].id) || PartialOk(req, g, i)
    ensures PartialOk(req, Extended(g, i, MessageReason(req, i)), i + 1)
  {
    var h := Extended(g, i, MessageReason(req, i));
    assert h.indices[..|h.indices| - 1] == g.indices;
  }

  lemma FiledInPlace(root: seq<int>, groups: seq<Group>, positions: map<int, int>, i: int, pos: int, g: Group)
    requires 0 <= i < |root| && Filed(root, groups, positions, i)
    requires root[i] in positions && pos == positions[root[i]] && 0 <= pos < |groups|
    requires g.indices == groups[pos].indices + [i]
    ensures Filed(root, groups[pos := g], positions, i + 1)
  {
    var after := groups[pos := g];
    assert g.indices[|g.indices| - 1] == i;
    assert forall k :: k in g.indices <==> k == i || k in groups[pos].indices;
    assert forall h :: 0 <= h < |groups| && h != pos ==> after[h].indices == groups[h].indices;
    forall k | 0 <= k < i + 1
      ensures root[k] in positions && 0 <= positions[root[k]] < |after| && k in after[positions[root[k]]].indices
    {
      if k < i {
        assert k in groups[positions[root[k]]].indices;
      }
    }
  }

  lemma FiledAnew(root: seq<int>, groups: seq<Group>, positions: map<int, int>, i: int, g: Group)
    requires 0 <= i < |root| && Filed(root, groups, positions, i) && root[i] !in positions
    requires g.indices == [i]
    ensures Filed(root, groups + [g], positions[root[i] := |groups|], i + 1)
  {
    var after, filed := groups + [g], positions[root[i] := |groups|];
    assert i in after[|groups|].indices;
    assert forall h :: 0 <= h < |groups| ==> after[h] == groups[h];
    forall k | 0 <= k < i + 1
      ensures root[k] in filed && 0 <= filed[root[k]] < |after| && k in after[filed[root[k]]].indices
    {
      if k < i {
        assert root[k] in positions;
        assert k in groups[positions[root[k]]].indices;
      }
    }
    forall h, k | 0 <= h < |after| && k in after[h].indices
      ensures 0 <= k < i + 1 && root[k] in filed && filed[root[k]] == h
    {
      if h < |groups| {
        assert k in groups[h].indices;
      } else {
        assert k == i;
      }
    }
  }

  lemma AllStillOk(req: Request, groups: seq<Group>, i: int)
    requires 0 <= i < |req.messages|
    requires forall g :: 0 <= g < |groups| ==> PartialOk(req, groups[g], i)
    ensures forall g :: 0 <= g < |groups| ==> PartialOk(req, groups[g], i + 1)
  {
  }

  lemma PlacedInPlace(req: Request, root: seq<int>, groups: seq<Group>, positions: map<int, int>, i: int, pos: int)
    requires 0 <= i < |req.messages| == |root|
    requires Partial(req, root, groups, positions, i)
    requires root[i] in positions && pos == positions[root[i]] && 0 <= pos < |groups|
    ensures Partial(req, root, groups[pos := Extended(groups[pos], i, MessageReason(req, i))], positions, i + 1)
  {
    var g := Extended(groups[pos], i, MessageReason(req, i));
    ExtendedOk(req, groups[pos], i);
    FiledInPlace(root, groups, positions, i, pos, g);
    AllStillOk(req, groups, i);
    assert g.indices[0] == groups[pos].indices[0];
  }

  lemma PlacedAnew(req: Request, root: seq<int>, groups: seq<Group>, positions: map<int, int>, i: int)
    requires 0 <= i < |req.messages| == |root|
    requires Partial(req, root, groups, positions, i) && root[i] !in positions
    ensures Partial(req, root, groups + [Extended(Group(req.messages[i].id, [], false, ""), i, MessageReason(req, i))],
                    positions[root[i] := |groups|], i + 1)
  {
    var empty := Group(req.messages[i].id, [], false, "");
    var g := Extended(empty, i, MessageReason(req, i));
    ExtendedOk(req, empty, i);
    FiledAnew(root, groups, positions, i, g);
    AllStillOk(req, groups, i);
    assert forall h :: 0 <= h < |groups| ==> PartialOk(req, groups[h], i) && groups[h].indices[0] < i;
  }

  method Place(req: Request, i: int, r: int, reason: string, groups: seq<Group>, positions: map<int, int>,
               ghost root: seq<int>)
    returns (groups': seq<Group>, positions': map<int, int>)
    requires 0 <= i < |req.messages| == |root| && root[i] == r && reason == MessageReason(req, i)
    requires Partial(req, root, groups, positions, i)
    ensures Partial(req, root, groups', positions', i + 1)
  {
    groups', positions' := groups, positions;
    if r in positions {
      PlacedInPlace(req, root, groups, positions, i, positions[r]);
    } else {
      PlacedAnew(req, root, groups, positions, i);
      positions' := positions'[r := |groups'|];
      groups' := groups' + [Group(req.messages[i].id, [], false, "")];
    }
    var pos := positions'[r];
    groups' := groups'[pos := Extended(groups'[pos], i, reason)];
    assert r !in positions ==> groups' == groups + [groups'[pos]];
  }

  lemma CallersAgree(calls: map<string, int>, messages: seq<Message>, id: string, n: int)
    requires 0 <= n <= |messages| && CallIndex(calls, messages, |messages|)
    requires id in calls && calls[id] < n
    ensures CallerOf(messages[..n], id) == calls[id]
    decreases n
  {
    assert HasCall(messages[calls[id]], id);
    if !HasCall(messages[n - 1], id) {
      assert messages[..n][..n - 1] == messages[..n - 1];
      CallersAgree(calls, messages, id, n - 1);
    }
  }

  lemma ResultsAreAnswered(results: map<string, int>, messages: seq<Message>)
    requires ResultIndex(results, messages, |messages|)
    ensures results.Keys == Answered(messages)
  {
    forall s
      ensures s in results <==> s in Answered(messages)
    {
      if s in results {
        assert messages[results[s]] in messages;
      }
      if s in Answered(messages) {
        var m :| m in messages && m.toolCallID == s;
        var j :| 0 <= j < |messages| && messages[j] == m;
      }
    }
  }

  /** The loop that collects `depended`. */
  method CollectDepended(messages: seq<Message>) returns (depended: set<string>)
    ensures depended == Depended(messages)
  {
    depended := {};
    for i := 0 to |messages|
      invariant depended == Depended(messages[..i])
    {
      depended := depended + set d | d in messages[i].dependsOn;
      assert messages[..i + 1] == messages[..i] + [messages[i]];
    }
    assert messages[..|messages|] == messages;
  }

  method ReasonFor(req: Request, i: int, calls: map<string, int>, results: map<string, int>, depended: set<string>)
    returns (reason: string)
    requires 0 <= i < |req.messages| && depended == Depended(req.messages)
    requires ValidHeader(req.messages[i]) && FollowsCall(req.messages, i)
    requires CallIndex(calls, req.messages, |req.messages|) && ResultIndex(results, req.messages, |req.messages|)
    ensures reason == MessageReason(req, i)
  {
    var m := req.messages[i];
    ResultsAreAnswered(results, req.messages);
    reason := Protection(m, i >= |req.messages| - RecentCount(req), results.Keys);
    if req.individually && IsTool(m) && reason == "" {
      var j :| 0 <= j < i && HasCall(req.messages[j], m.toolCallID);
      assert m.toolCallID in calls && 0 <= calls[m.toolCallID] < |req.messages|;
      CallersAgree(calls, req.messages, m.toolCallID, |req.messages|);
      assert req.messages[..|req.messages|] == req.messages;
      reason := ResultProtection(req, calls[m.toolCallID], m.toolCallID, results.Keys, depended);
    }
  }

  /** `protectConversationGroups`: a group without any tool result stays as it is. */
  method ProtectConversations(req: Request, partial: seq<Group>) returns (groups: seq<Group>)
    requires forall g :: 0 <= g < |partial| ==> PartialOk(req, partial[g], |req.messages|)
    ensures |groups| == |partial|
    ensures forall g :: 0 <= g < |groups| ==> GroupOk(req, groups[g]) && groups[g].indices == partial[g].indices
  {
    groups := partial;
    for i := 0 to |groups|
      invariant |groups| == |partial|
      invariant forall g :: 0 <= g < i ==> GroupOk(req, groups[g]) && groups[g].indices == partial[g].indices
      invariant forall g :: i <= g < |groups| ==> groups[g] == partial[g]
    {
      assert PartialOk(req, partial[i], |req.messages|);
      var hasToolResult := HasToolResult(req.messages, groups[i].indices);
      if !groups[i].protected && !hasToolResult {
        groups := groups[i := groups[i].(protected := true, reason := "conversation text preserved")];
      }
      assert GroupOk(req, groups[i]);
    }
  }

  lemma FiledIsGrouping(req: Request, root: seq<int>, partial: seq<Group>, positions: map<int, int>, groups: seq<Group>)
    requires |root| == |req.messages| && Forced(root, Edges(req)) && Respects(root, Edges(req))
    requires Partial(req, root, partial, positions, |root|)
    requires |groups| == |partial|
    requires forall g :: 0 <= g < |groups| ==> GroupOk(req, groups[g]) && groups[g].indices == partial[g].indices
    ensures IsGrouping(req, groups)
  {
    forall i | 0 <= i < |req.messages|
      ensures Covered(groups, i)
    {
      assert i in groups[positions[root[i]]].indices;
    }
    forall g, h, i, j | 0 <= g < |groups| && 0 <= h < |groups| && i in groups[g].indices && j in groups[h].indices
      ensures g == h <==> Together(req, i, j)
    {
      assert i in partial[g].indices && j in partial[h].indices;
      RootsDecideLinked(root, Edges(req), i, j);
    }
  }

  method AssembleGroups(validJson: string -> bool, req: Request, parents: array<int>,
                        calls: map<string, int>, results: map<string, int>, ghost f: Forest)
    returns (groups: seq<Group>)
    requires Accepts(validJson, req)
    requires CallIndex(calls, req.messages, |req.messages|) && ResultIndex(results, req.messages, |req.messages|)
    requires Sound(parents[..], f, req) && Respects(f.root, Edges(req))
    modifies parents
    ensures IsGrouping(req, groups)
  {
    var depended := CollectDepended(req.messages);
    groups := [];
    var positions: map<int, int> := map[];
    for i := 0 to |req.messages|
      invariant Sound(parents[..], f, req)
      invariant Partial(req, f.root, groups, positions, i)
    {
      var r := Find(parents, i, f);
      assert MessageFits(validJson, req.messages, i);
      var reason := ReasonFor(req, i, calls, results, depended);
      groups, positions := Place(req, i, r, reason, groups, positions, f.root);
    }
    ghost var partial := groups;
    groups := ProtectConversations(req, groups);
    FiledIsGrouping(req, f.root, partial, positions, groups);
  }

  // ----- collectGroups -----

  lemma CoarserKeepsLinks(messages: seq<Message>, fine: seq<int>, coarse: seq<int>)
    requires |messages| == |fine| && Coarser(fine, coarse)
    requires DependsJoined(messages, fine, |fine|) && LabelsJoined(messages, fine, |fine|)
    ensures DependsJoined(messages, coarse, |fine|) && LabelsJoined(messages, coarse, |fine|)
  {
  }

  ghost predicate AllLinksResolve(messages: seq<Message>) {
    && (forall i :: 0 <= i < |messages| ==> DependenciesResolve(messages, i))
    && (forall i :: 0 <= i < |messages| ==> FollowsCall(messages, i))
  }

  /** The second and the third loop: all edges are joined, and nothing else. */
  method LinkAll(req: Request, ids: map<string, int>, calls: map<string, int>, results: map<string, int>,
                 parents: array<int>, ghost f: Forest) returns (ok: bool, ghost g: Forest)
    requires IdIndex(ids, req.messages, |req.messages|) && CallIndex(calls, req.messages, |req.messages|)
    requires ResultIndex(results, req.messages, |req.messages|)
    requires Sound(parents[..], f, req)
    modifies parents
    ensures ok <==> AllLinksResolve(req.messages)
    ensures ok ==> Sound(parents[..], g, req) && Respects(g.root, Edges(req))
  {
    ok, g := LinkDeclared(req, ids, parents, f);
    if !ok {
      return;
    }
    ghost var declared := g.root;
    ok, g := LinkCalls(req, calls, results, parents, g);
    ResultsFollow(req.messages, calls, results);
    if ok {
      CoarserKeepsLinks(req.messages, declared, g.root);
      AllEdgesJoined(req, calls, results, g.root);
    }
  }

  /** Accepts exactly the valid requests, and returns their one grouping. */
  method CollectGroups(validJson: string -> bool, req: Request) returns (r: Option<seq<Group>>)
    ensures r.Some? <==> Accepts(validJson, req)
    ensures r.Some? ==> IsGrouping(req, r.value)
  {
    if Blank(req.goal) || |req.goal| > 16000 || req.target < 1 {
      return None;
    }
    if |req.messages| == 0 || |req.messages| > 10000 || !ValidUtf8(req.goal) {
      return None;
    }
    if req.recent.Some? && req.recent.value < 0 {
      return None;
    }
    var parents := new int[|req.messages|](i => i);
    var ok, ids, calls, results := ScanMessages(validJson, req.messages);
    if !ok {
      return None;
    }
    ghost var f := Forest(parents[..], seq(|req.messages|, i => 0));
    assert Sound(parents[..], f, req);
    ok, f := LinkAll(req, ids, calls, results, parents, f);
    if !ok {
      return None;
    }
    var groups := AssembleGroups(validJson, req, parents, calls, results, f);
    return Some(groups);
  }
}
