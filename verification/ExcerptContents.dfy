/** How much an excerpt shows: which lines are whole, where a cut is made, and when lines are left out. */
module ExcerptContents {
  import opened Text
  import opened Excerpts

  // ----- the order of the lines -----

  /** The keyword score of line `i`, and two more for the first and the last two lines. */
  function Merit(keyword: KeywordScore, lines: seq<string>, goal: string, i: int): int
    requires 0 <= i < |lines|
  {
    keyword(lines[i], goal) + if i <= 1 || i + 2 >= |lines| then 2 else 0
  }

  /** Line `i` is taken before line `j`: it has more merit, or as much and stands earlier. */
  predicate TakenBefore(keyword: KeywordScore, lines: seq<string>, goal: string, i: int, j: int)
    requires 0 <= i < |lines| && 0 <= j < |lines|
  {
    var a, b := Merit(keyword, lines, goal, i), Merit(keyword, lines, goal, j);
    a > b || (a == b && i < j)
  }

  lemma MeritRanks(keyword: KeywordScore, lines: seq<string>, goal: string, i: int, j: int)
    requires 0 <= i < |lines| && 0 <= j < |lines|
    ensures Outranks(LineRank(keyword, lines, goal, i), LineRank(keyword, lines, goal, j))
      <==> TakenBefore(keyword, lines, goal, i, j)
  {
  }

  // ----- bytes of the shown lines -----

  /** The bytes of those entries whose line is in `of`, each with its line break. */
  function Bytes(entries: seq<string>, shown: seq<int>, of: set<int>): nat
    requires |entries| == |shown|
  {
    if shown == [] then 0
    else (if shown[0] in of then |entries[0]| + 1 else 0) + Bytes(entries[1..], shown[1..], of)
  }

  function SelectedBytes(n: nat, selected: map<int, string>, of: set<int>, i: nat): nat
    requires i <= n
    decreases n - i
  {
    if i == n then 0
    else (if i in selected && i in of then |selected[i]| + 1 else 0) + SelectedBytes(n, selected, of, i + 1)
  }

  lemma {:induction false} BytesAreSelected(n: nat, selected: map<int, string>, of: set<int>, i: nat)
    requires i <= n
    ensures var shown := Shown(n, selected, i);
      Bytes(Entries(selected, shown), shown, of) == SelectedBytes(n, selected, of, i)
    decreases n - i
  {
    if i < n {
      BytesAreSelected(n, selected, of, i + 1);
      var rest := Shown(n, selected, i + 1);
      if i in selected {
        EntriesCons(selected, i, rest);
        assert ([i] + rest)[1..] == rest;
      }
    }
  }

  lemma {:induction false} NoBytes(n: nat, selected: map<int, string>, i: nat)
    requires i <= n
    ensures SelectedBytes(n, selected, {}, i) == 0
    decreases n - i
  {
    if i < n {
      NoBytes(n, selected, i + 1);
    }
  }

  lemma {:induction false} MoreBytes(n: nat, selected: map<int, string>, of: set<int>, x: int, i: nat)
    requires i <= n && x in selected && x !in of
    ensures SelectedBytes(n, selected, of + {x}, i)
      == SelectedBytes(n, selected, of, i) + if i <= x < n then |selected[x]| + 1 else 0
    decreases n - i
  {
    if i < n {
      MoreBytes(n, selected, of, x, i + 1);
    }
  }

  // ----- the budget along the ranks -----

  /** The entries in the order in which they are made. */
  function RankEntries(ranks: seq<Rank>, lines: seq<string>, remaining: int, limit: int): (entries: seq<string>)
    requires IndexesLines(ranks, lines)
    ensures |entries| <= |ranks|
  {
    if ranks == [] || remaining < 32 then []
    else
      var entry := FirstEntry(ranks, lines, remaining, limit);
      [entry] + RankEntries(ranks[1..], lines, remaining - |entry| - 1, limit)
  }

  /** What the first `t` entries leave of the bytes. */
  function Left(entries: seq<string>, remaining: int, t: nat): int
    requires t <= |entries|
  {
    if t == 0 then remaining else Left(entries[1..], remaining - |entries[0]| - 1, t - 1)
  }

  lemma {:induction false} LeftNext(entries: seq<string>, remaining: int, t: nat)
    requires t < |entries|
    ensures Left(entries, remaining, t + 1) == Left(entries, remaining, t) - |entries[t]| - 1
  {
    if t > 0 {
      LeftNext(entries[1..], remaining - |entries[0]| - 1, t - 1);
    }
  }

  /** Entry `t` is made with what the earlier ones leave, which is at least 32 bytes; at the end it is less. */
  ghost predicate EntryWithin(ranks: seq<Rank>, lines: seq<string>, entries: seq<string>, remaining: int, limit: int,
                              t: nat)
    requires IndexesLines(ranks, lines) && t <= |entries| <= |ranks|
  {
    var left := Left(entries, remaining, t);
    if t < |entries| then left >= 32 && entries[t] == FirstEntry(ranks[t..], lines, left, limit)
    else t == |ranks| || left < 32
  }

  lemma {:induction false} MadeWithin(ranks: seq<Rank>, lines: seq<string>, remaining: int, limit: int, t: nat)
    requires IndexesLines(ranks, lines) && t <= |RankEntries(ranks, lines, remaining, limit)|
    ensures EntryWithin(ranks, lines, RankEntries(ranks, lines, remaining, limit), remaining, limit, t)
    decreases |ranks|, 1
  {
    if t > 0 {
      LaterWithin(ranks, lines, remaining, limit, t);
    } else {
      assert ranks[0..] == ranks;
    }
  }

  lemma LaterEntries(ranks: seq<Rank>, lines: seq<string>, remaining: int, limit: int) returns (rest: int)
    requires IndexesLines(ranks, lines) && RankEntries(ranks, lines, remaining, limit) != []
    ensures var entries := RankEntries(ranks, lines, remaining, limit);
      && rest == remaining - |entries[0]| - 1
      && entries[1..] == RankEntries(ranks[1..], lines, rest, limit)
  {
    rest := remaining - |FirstEntry(ranks, lines, remaining, limit)| - 1;
  }

  lemma {:induction false} LaterWithin(ranks: seq<Rank>, lines: seq<string>, remaining: int, limit: int, t: nat)
    requires IndexesLines(ranks, lines) && 0 < t <= |RankEntries(ranks, lines, remaining, limit)|
    ensures EntryWithin(ranks, lines, RankEntries(ranks, lines, remaining, limit), remaining, limit, t)
    decreases |ranks|, 0
  {
    var rest := LaterEntries(ranks, lines, remaining, limit);
    MadeWithin(ranks[1..], lines, rest, limit, t - 1);
    WithinShift(ranks, lines, RankEntries(ranks, lines, remaining, limit), remaining, limit, t);
  }

  lemma WithinShift(ranks: seq<Rank>, lines: seq<string>, entries: seq<string>, remaining: int, limit: int, t: nat)
    requires IndexesLines(ranks, lines) && 0 < t <= |entries| <= |ranks|
    requires EntryWithin(ranks[1..], lines, entries[1..], remaining - |entries[0]| - 1, limit, t - 1)
    ensures EntryWithin(ranks, lines, entries, remaining, limit, t)
  {
    assert ranks[1..][t - 1..] == ranks[t..];
  }

  lemma {:induction false} MadeCount(ranks: seq<Rank>, lines: seq<string>, remaining: int, limit: int)
    requires IndexesLines(ranks, lines)
    ensures |RankEntries(ranks, lines, remaining, limit)| == PickCount(ranks, lines, remaining, limit)
    decreases |ranks|
  {
    if ranks != [] && remaining >= 32 {
      MadeCount(ranks[1..], lines, remaining - |FirstEntry(ranks, lines, remaining, limit)| - 1, limit);
    }
  }

  /** The map of selected lines holds entry `t` under the line of rank `t`. */
  lemma {:induction false} MadeIsPicked(ranks: seq<Rank>, lines: seq<string>, remaining: int, limit: int, t: nat)
    requires IndexesLines(ranks, lines) && DistinctIndexes(ranks)
    requires t < |RankEntries(ranks, lines, remaining, limit)|
    ensures var selected := Picks(ranks, lines, remaining, limit);
      ranks[t].index in selected && selected[ranks[t].index] == RankEntries(ranks, lines, remaining, limit)[t]
    decreases |ranks|
  {
    var rest := remaining - |FirstEntry(ranks, lines, remaining, limit)| - 1;
    RestOmitsFirst(ranks, lines, rest, limit);
    if t > 0 {
      MadeIsPicked(ranks[1..], lines, rest, limit, t - 1);
    }
  }

  // ----- where a cut is made -----

  /** No four bytes of valid UTF-8 are without a rune start. */
  lemma {:induction false} StartIsNear(s: string, k: nat) returns (m: nat)
    requires ValidUtf8(s) && k < |s|
    ensures k - 3 <= m <= k && RuneStart(s[m])
  {
    var n := RuneLen(s);
    if k < n {
      m := 0;
    } else {
      var rest := StartIsNear(s[n..], k - n);
      m := n + rest;
      assert s[n..][rest] == s[m];
    }
  }

  /** The entry shows the line whole when it fits the cap, and else cuts it at the last rune boundary within. */
  ghost predicate ShowsWithin(entry: string, line: string, i: int, cap: int)
    requires i >= 0
  {
    if |line| <= cap then entry == "L" + Decimal(i + 1) + ": " + line
    else exists cut ::
      && 0 <= cut <= cap && cut < |line| && RuneBoundary(line, cut)
      && (ValidUtf8(line) ==> cap - cut <= 3)
      && (forall m :: cut < m <= cap ==> !RuneStart(line[m]))
      && entry == "L" + Decimal(i + 1) + ": " + line[..cut] + " [line truncated]"
  }

  lemma CutIsNear(line: string, cap: nat)
    requires cap < |line| && ValidUtf8(line)
    ensures cap - CutBack(line, cap) <= 3
  {
    var m := StartIsNear(line, cap);
  }

  lemma PieceShows(line: string, i: nat, left: int, limit: int)
    requires left >= 32
    ensures ShowsWithin(Entry(i, Piece(line, left, limit)), line, i, Min(left - 24, Max(80, limit / 4)))
  {
    var cap := Min(left - 24, Max(80, limit / 4));
    var head := "L" + Decimal(i + 1) + ": ";
    if |line| > cap {
      var cut := CutBack(line, cap);
      if ValidUtf8(line) {
        CutIsNear(line, cap);
      }
      assert Clip(line, cap) == line[..cut];
      assert Entry(i, line[..cut] + TRUNCATED) == head + line[..cut] + " [line truncated]";
    }
  }

  // ----- the statement about the lines that come out -----

  ghost function ShownBefore(keyword: KeywordScore, lines: seq<string>, goal: string, shown: seq<int>, i: int): set<int>
    requires 0 <= i < |lines| && forall k :: 0 <= k < |shown| ==> 0 <= shown[k] < |lines|
  {
    set k | 0 <= k < |shown| && TakenBefore(keyword, lines, goal, shown[k], i) :: shown[k]
  }

  /** What is left of the budget for line `i` once the shown lines that go before it are paid. */
  ghost function LeftFor(keyword: KeywordScore, lines: seq<string>, goal: string, limit: int,
                         entries: seq<string>, shown: seq<int>, i: int): int
    requires |entries| == |shown| && 0 <= i < |lines|
    requires forall k :: 0 <= k < |shown| ==> 0 <= shown[k] < |lines|
  {
    Max(0, limit - 64) - Bytes(entries, shown, ShownBefore(keyword, lines, goal, shown, i))
  }

  lemma IndexesSnoc(ranks: seq<Rank>, t: nat)
    requires t < |ranks|
    ensures Indexes(ranks[..t + 1]) == Indexes(ranks[..t]) + {ranks[t].index}
  {
    assert ranks[..t + 1] == ranks[..t] + [ranks[t]];
    forall r
      ensures r in ranks[..t + 1] <==> r in ranks[..t] || r == ranks[t]
    {
    }
  }

  /** What the entries leave is what the bytes of their lines leave. */
  lemma {:induction false} LeftIsBytes(n: nat, ranks: seq<Rank>, entries: seq<string>, selected: map<int, string>,
                                       remaining: int, t: nat)
    requires t <= |entries| <= |ranks| && DistinctIndexes(ranks)
    requires forall u :: 0 <= u < t ==> 0 <= ranks[u].index < n && ranks[u].index in selected
    requires forall u :: 0 <= u < t ==> selected[ranks[u].index] == entries[u]
    ensures Left(entries, remaining, t) == remaining - SelectedBytes(n, selected, Indexes(ranks[..t]), 0)
  {
    if t == 0 {
      assert Indexes(ranks[..0]) == {};
      NoBytes(n, selected, 0);
    } else {
      LeftIsBytes(n, ranks, entries, selected, remaining, t - 1);
      LeftNext(entries, remaining, t - 1);
      IndexesSnoc(ranks, t - 1);
      NotBefore(ranks, t - 1);
      MoreBytes(n, selected, Indexes(ranks[..t - 1]), ranks[t - 1].index, 0);
    }
  }

  lemma NotBefore(ranks: seq<Rank>, t: nat)
    requires t < |ranks| && DistinctIndexes(ranks)
    ensures ranks[t].index !in Indexes(ranks[..t])
  {
    forall r | r in ranks[..t]
      ensures r.index != ranks[t].index
    {
      var u :| 0 <= u < t && ranks[..t][u] == r;
    }
  }

  /** The ranks of all lines, each once, in falling order. */
  ghost predicate Ordered(keyword: KeywordScore, lines: seq<string>, goal: string, ranks: seq<Rank>) {
    && Ranked(ranks) && DistinctIndexes(ranks) && |ranks| == |lines| && IndexesLines(ranks, lines)
    && (forall i :: 0 <= i < |lines| ==> LineRank(keyword, lines, goal, i) in ranks)
    && forall r :: r in ranks ==> 0 <= r.index < |lines| && r == LineRank(keyword, lines, goal, r.index)
  }

  /** Ranks before `t` are those whose lines are taken before its line. */
  lemma PrefixIsBefore(keyword: KeywordScore, lines: seq<string>, goal: string, ranks: seq<Rank>, n: nat, t: nat,
                       shown: seq<int>)
    requires Ordered(keyword, lines, goal, ranks) && t < n <= |ranks|
    requires forall k :: 0 <= k < |shown| ==> 0 <= shown[k] < |lines|
    requires forall x :: x in shown <==> x in Indexes(ranks[..n])
    ensures 0 <= ranks[t].index < |lines|
    ensures ShownBefore(keyword, lines, goal, shown, ranks[t].index) == Indexes(ranks[..t])
  {
    var at := ranks[t].index;
    assert ranks[t] in ranks;
    forall x
      ensures x in ShownBefore(keyword, lines, goal, shown, at) <==> x in Indexes(ranks[..t])
    {
      if x in ShownBefore(keyword, lines, goal, shown, at) {
        var k :| 0 <= k < |shown| && TakenBefore(keyword, lines, goal, shown[k], at) && shown[k] == x;
        assert x in shown;
        var u := RankWith(ranks, n, x);
        RankOrder(keyword, lines, goal, ranks, u, t);
        assert ranks[..t][u] in ranks[..t];
      }
      if x in Indexes(ranks[..t]) {
        var u := RankWith(ranks, t, x);
        assert ranks[..n][u] in ranks[..n];
        RankOrder(keyword, lines, goal, ranks, u, t);
        assert x in shown;
        var k :| 0 <= k < |shown| && shown[k] == x;
      }
    }
  }

  lemma RankWith(ranks: seq<Rank>, n: nat, x: int) returns (u: nat)
    requires n <= |ranks| && x in Indexes(ranks[..n])
    ensures u < n && ranks[u].index == x
  {
    var r :| r in ranks[..n] && r.index == x;
    u :| 0 <= u < n && ranks[..n][u] == r;
  }

  lemma RankOrder(keyword: KeywordScore, lines: seq<string>, goal: string, ranks: seq<Rank>, u: nat, t: nat)
    requires Ordered(keyword, lines, goal, ranks) && u < |ranks| && t < |ranks|
    ensures 0 <= ranks[u].index < |lines| && 0 <= ranks[t].index < |lines|
    ensures TakenBefore(keyword, lines, goal, ranks[u].index, ranks[t].index) <==> u < t
  {
    assert ranks[u] in ranks && ranks[t] in ranks;
    MeritRanks(keyword, lines, goal, ranks[u].index, ranks[t].index);
  }

  /** The shown line `i` leaves, and is made with, at least 32 bytes, and is shown as far as the cap allows. */
  ghost predicate ShownInFull(keyword: KeywordScore, lines: seq<string>, goal: string, limit: int,
                              entries: seq<string>, shown: seq<int>, k: nat)
    requires |entries| == |shown| && k < |shown|
    requires forall l :: 0 <= l < |shown| ==> 0 <= shown[l] < |lines|
  {
    var left := LeftFor(keyword, lines, goal, limit, entries, shown, shown[k]);
    left >= 32 && ShowsWithin(entries[k], lines[shown[k]], shown[k], Min(left - 24, Max(80, limit / 4)))
  }

  /** The lines shown are those of the first `n` ranks. */
  ghost predicate ShowsFirst(ranks: seq<Rank>, n: nat, shown: seq<int>) {
    n <= |ranks| && forall x :: x in shown <==> x in Indexes(ranks[..n])
  }

  lemma ShownIsPicked(ranks: seq<Rank>, lines: seq<string>, budget: int, limit: int)
    requires IndexesLines(ranks, lines)
    ensures var shown := Shown(|lines|, Picks(ranks, lines, budget, limit), 0);
      ShowsFirst(ranks, |RankEntries(ranks, lines, budget, limit)|, shown)
  {
    var selected := Picks(ranks, lines, budget, limit);
    MadeCount(ranks, lines, budget, limit);
    PickedKeys(ranks, lines, budget, limit);
    PicksLiteral(ranks, lines, budget, limit);
    forall x | x in selected
      ensures x in Shown(|lines|, selected, 0)
    {
      ShownAll(|lines|, selected, 0, x);
    }
  }

  /** Rank `t` has its entry in the map, made with what the lines of the ranks before it leave. */
  ghost predicate EntryHolds(ranks: seq<Rank>, lines: seq<string>, selected: map<int, string>,
                             budget: int, limit: int, t: nat)
    requires t < |ranks| && 0 <= ranks[t].index < |lines|
  {
    var left, i := budget - SelectedBytes(|lines|, selected, Indexes(ranks[..t]), 0), ranks[t].index;
    && i in selected && left >= 32
    && ShowsWithin(selected[i], lines[i], i, Min(left - 24, Max(80, limit / 4)))
  }

  lemma EntryOfRank(ranks: seq<Rank>, lines: seq<string>, budget: int, limit: int, t: nat)
    requires IndexesLines(ranks, lines) && DistinctIndexes(ranks)
    requires t < |RankEntries(ranks, lines, budget, limit)|
    ensures EntryHolds(ranks, lines, Picks(ranks, lines, budget, limit), budget, limit, t)
  {
    var entries, selected := RankEntries(ranks, lines, budget, limit), Picks(ranks, lines, budget, limit);
    forall u | 0 <= u <= t
      ensures ranks[u].index in selected && selected[ranks[u].index] == entries[u]
    {
      MadeIsPicked(ranks, lines, budget, limit, u);
    }
    LeftIsBytes(|lines|, ranks, entries, selected, budget, t);
    MadeWithin(ranks, lines, budget, limit, t);
    PieceShows(lines[ranks[t].index], ranks[t].index, Left(entries, budget, t), limit);
  }

  lemma OneInFull(keyword: KeywordScore, lines: seq<string>, goal: string, limit: int, ranks: seq<Rank>, n: nat,
                  selected: map<int, string>, shown: seq<int>, k: nat, t: nat)
    requires Ordered(keyword, lines, goal, ranks) && ShowsFirst(ranks, n, shown)
    requires shown == Shown(|lines|, selected, 0) && k < |shown| && t < n && ranks[t].index == shown[k]
    requires EntryHolds(ranks, lines, selected, Max(0, limit - 64), limit, t)
    ensures ShownInFull(keyword, lines, goal, limit, Entries(selected, shown), shown, k)
  {
    PrefixIsBefore(keyword, lines, goal, ranks, n, t, shown);
    BytesAreSelected(|lines|, selected, Indexes(ranks[..t]), 0);
  }

  /** Where the loop stops, no rank is left or fewer than 32 bytes are. */
  lemma RestIsLess(ranks: seq<Rank>, lines: seq<string>, budget: int, limit: int)
    requires IndexesLines(ranks, lines) && DistinctIndexes(ranks)
    ensures var n, selected := |RankEntries(ranks, lines, budget, limit)|, Picks(ranks, lines, budget, limit);
      && n <= |ranks|
      && (n == |ranks| || budget - SelectedBytes(|lines|, selected, Indexes(ranks[..n]), 0) < 32)
  {
    var selected, entries := Picks(ranks, lines, budget, limit), RankEntries(ranks, lines, budget, limit);
    var n := |entries|;
    MadeCount(ranks, lines, budget, limit);
    MadeWithin(ranks, lines, budget, limit, n);
    forall u | 0 <= u < n
      ensures ranks[u].index in selected && selected[ranks[u].index] == entries[u]
    {
      MadeIsPicked(ranks, lines, budget, limit, u);
    }
    LeftIsBytes(|lines|, ranks, entries, selected, budget, n);
  }

  /** Something is left out only when the shown lines leave fewer than 32 bytes. */
  lemma OmittedForBytes(ranks: seq<Rank>, lines: seq<string>, selected: map<int, string>, budget: int, n: nat,
                        shown: seq<int>)
    requires ShowsFirst(ranks, n, shown)
    requires n == |ranks| || budget - SelectedBytes(|lines|, selected, Indexes(ranks[..n]), 0) < 32
    ensures (forall r :: r in ranks ==> r.index in shown)
      || budget - SelectedBytes(|lines|, selected, set x | x in shown, 0) < 32
  {
    if n == |ranks| {
      assert ranks[..n] == ranks;
    } else {
      forall x
        ensures x in (set y | y in shown) <==> x in Indexes(ranks[..n])
      {
      }
      assert (set x | x in shown) == Indexes(ranks[..n]);
    }
  }

  /** Every line has a rank, so when all ranks are shown all lines are. */
  lemma AllRanksAllLines(keyword: KeywordScore, lines: seq<string>, goal: string, ranks: seq<Rank>, shown: seq<int>)
    requires Ordered(keyword, lines, goal, ranks) && Rising(shown)
    requires forall r :: r in ranks ==> r.index in shown
    ensures |shown| >= |lines|
  {
    forall i | 0 <= i < |lines|
      ensures i in shown
    {
      assert LineRank(keyword, lines, goal, i) in ranks;
    }
    CoversAll(shown, |lines|);
  }

  lemma {:induction false} CoversAll(shown: seq<int>, n: nat)
    requires Rising(shown) && forall i :: 0 <= i < n ==> i in shown
    ensures |shown| >= n
  {
    if n > 0 {
      assert (n - 1) in shown;
      var k :| 0 <= k < |shown| && shown[k] == n - 1;
      forall i | 0 <= i < n - 1
        ensures i in shown[..k]
      {
        assert i in shown;
        var j :| 0 <= j < |shown| && shown[j] == i;
        assert shown[..k][j] == i;
      }
      CoversAll(shown[..k], n - 1);
    }
  }

  /** The parts of the statement, over ranks and selected lines. */
  lemma SelectionShowsAll(keyword: KeywordScore, lines: seq<string>, goal: string, limit: int, ranks: seq<Rank>,
                          selected: map<int, string>, shown: seq<int>)
    requires Ordered(keyword, lines, goal, ranks) && selected == Picks(ranks, lines, Max(0, limit - 64), limit)
    requires shown == Shown(|lines|, selected, 0) && |lines| > 0
    ensures forall k :: 0 <= k < |shown| ==>
      ShownInFull(keyword, lines, goal, limit, Entries(selected, shown), shown, k)
    ensures |shown| < |lines| ==>
      Max(0, limit - 64) - Bytes(Entries(selected, shown), shown, set x | x in shown) < 32
    ensures limit >= 96 ==> shown != []
  {
    var budget := Max(0, limit - 64);
    var n := |RankEntries(ranks, lines, budget, limit)|;
    ShownIsPicked(ranks, lines, budget, limit);
    forall k | 0 <= k < |shown|
      ensures ShownInFull(keyword, lines, goal, limit, Entries(selected, shown), shown, k)
    {
      assert shown[k] in shown;
      var t := RankWith(ranks, n, shown[k]);
      EntryOfRank(ranks, lines, budget, limit, t);
      OneInFull(keyword, lines, goal, limit, ranks, n, selected, shown, k, t);
    }
    RestIsLess(ranks, lines, budget, limit);
    OmittedForBytes(ranks, lines, selected, budget, n, shown);
    BytesAreSelected(|lines|, selected, set x | x in shown, 0);
    ShownRise(|lines|, selected, 0);
    if forall r :: r in ranks ==> r.index in shown {
      AllRanksAllLines(keyword, lines, goal, ranks, shown);
    }
    if shown == [] {
      NoBytesOf(Entries(selected, shown), shown);
    }
  }

  lemma NoBytesOf(entries: seq<string>, shown: seq<int>)
    requires |entries| == |shown| == 0
    ensures Bytes(entries, shown, set x | x in shown) == 0
  {
  }

  /** A line of at most 8 bytes fits whatever is left. */
  lemma SmallIsWhole(keyword: KeywordScore, lines: seq<string>, goal: string, limit: int,
                     entries: seq<string>, shown: seq<int>, k: nat)
    requires |entries| == |shown| && k < |shown|
    requires forall l :: 0 <= l < |shown| ==> 0 <= shown[l] < |lines|
    requires ShownInFull(keyword, lines, goal, limit, entries, shown, k) && |lines[shown[k]]| <= 8
    ensures entries[k] == "L" + Decimal(shown[k] + 1) + ": " + lines[shown[k]]
  {
  }

  lemma OmittedBehind(keyword: KeywordScore, text: string, goal: string, limit: int, i: int, j: int)
    requires var shown := Shown(|Split(text)|, Selected(keyword, text, goal, limit), 0);
      i in shown && j !in shown && 0 <= j < |Split(text)|
    ensures 0 <= i < |Split(text)| && TakenBefore(keyword, Split(text), goal, i, j)
  {
    if j in Selected(keyword, text, goal, limit) {
      ShownAll(|Split(text)|, Selected(keyword, text, goal, limit), 0, j);
    }
    SelectedDominates(keyword, text, goal, limit, i, j);
    MeritRanks(keyword, Split(text), goal, i, j);
  }

  /**
   What is shown of the lines.  A shown line is whole unless it exceeds a quarter of the
   limit (and 80 bytes), or the bytes that are left to it less 24; then it is cut at the
   last rune boundary within, which in valid UTF-8 is at most three bytes off.  A line of
   at most 8 bytes is always whole.  Lines are left out only when the shown ones leave
   fewer than 32 of the limit less 64 bytes.
   */
  ghost predicate ShowsAll(keyword: KeywordScore, lines: seq<string>, goal: string, limit: int,
                           entries: seq<string>, shown: seq<int>)
    requires |entries| == |shown| && forall l :: 0 <= l < |shown| ==> 0 <= shown[l] < |lines|
  {
    && (forall k :: 0 <= k < |shown| ==> ShownInFull(keyword, lines, goal, limit, entries, shown, k))
    && (forall k :: 0 <= k < |shown| && |lines[shown[k]]| <= 8 ==>
          entries[k] == "L" + Decimal(shown[k] + 1) + ": " + lines[shown[k]])
    && (|shown| < |lines| ==> Max(0, limit - 64) - Bytes(entries, shown, set x | x in shown) < 32)
  }

  lemma PartsShowAll(keyword: KeywordScore, lines: seq<string>, goal: string, limit: int, ranks: seq<Rank>,
                     selected: map<int, string>, shown: seq<int>)
    requires Ordered(keyword, lines, goal, ranks) && selected == Picks(ranks, lines, Max(0, limit - 64), limit)
    requires shown == Shown(|lines|, selected, 0) && |lines| > 0
    ensures ShowsAll(keyword, lines, goal, limit, Entries(selected, shown), shown)
    ensures limit >= 96 ==> shown != []
  {
    var entries := Entries(selected, shown);
    SelectionShowsAll(keyword, lines, goal, limit, ranks, selected, shown);
    forall k | 0 <= k < |shown| && |lines[shown[k]]| <= 8
      ensures entries[k] == "L" + Decimal(shown[k] + 1) + ": " + lines[shown[k]]
    {
      SmallIsWhole(keyword, lines, goal, limit, entries, shown, k);
    }
  }

  lemma OrderIsOrdered(keyword: KeywordScore, lines: seq<string>, goal: string)
    ensures Ordered(keyword, lines, goal, Order(keyword, lines, goal))
  {
    OrderDistinct(keyword, lines, goal);
  }

  /** No line left out goes before a shown one. */
  ghost predicate LeavesTheLeast(keyword: KeywordScore, lines: seq<string>, goal: string, shown: seq<int>) {
    forall i, j :: i in shown && 0 <= j < |lines| && j !in shown ==>
      0 <= i < |lines| && TakenBefore(keyword, lines, goal, i, j)
  }

  lemma LeastAreLeft(keyword: KeywordScore, text: string, goal: string, limit: int)
    ensures LeavesTheLeast(keyword, Split(text), goal, Shown(|Split(text)|, Selected(keyword, text, goal, limit), 0))
  {
    var lines, shown := Split(text), Shown(|Split(text)|, Selected(keyword, text, goal, limit), 0);
    forall i, j | i in shown && 0 <= j < |lines| && j !in shown
      ensures 0 <= i < |lines| && TakenBefore(keyword, lines, goal, i, j)
    {
      OmittedBehind(keyword, text, goal, limit, i, j);
    }
  }

  lemma SelectedShowsAll(keyword: KeywordScore, text: string, goal: string, limit: int)
    ensures var lines, selected := Split(text), Selected(keyword, text, goal, limit);
      var shown := Shown(|lines|, selected, 0);
      && (forall k :: 0 <= k < |shown| ==> 0 <= shown[k] < |lines|)
      && ShowsAll(keyword, lines, goal, limit, Entries(selected, shown), shown)
      && (limit >= 96 ==> shown != [])
  {
    var lines, selected := Split(text), Selected(keyword, text, goal, limit);
    OrderIsOrdered(keyword, lines, goal);
    PartsShowAll(keyword, lines, goal, limit, Order(keyword, lines, goal), selected, Shown(|lines|, selected, 0));
  }

  /**
   The lines that come out show all that the budget allows, and the lines left out are
   behind all shown ones in merit; with a limit of 96 something is always shown.
   */
  ghost predicate ExcerptShows(keyword: KeywordScore, lines: seq<string>, goal: string, limit: int,
                               out: seq<string>, shown: seq<int>)
  {
    && Presents(out, lines, shown) && ShowsAll(keyword, lines, goal, limit, out[1..|shown| + 1], shown)
    && LeavesTheLeast(keyword, lines, goal, shown)
    && (limit >= 96 ==> shown != [])
  }

  lemma Combined(keyword: KeywordScore, lines: seq<string>, goal: string, limit: int,
                 out: seq<string>, entries: seq<string>, shown: seq<int>)
    requires Presents(out, lines, shown) && out[1..|shown| + 1] == entries
    requires ShowsAll(keyword, lines, goal, limit, entries, shown)
    requires LeavesTheLeast(keyword, lines, goal, shown) && (limit >= 96 ==> shown != [])
    ensures ExcerptShows(keyword, lines, goal, limit, out, shown)
  {
  }

  /** What an excerpt of a text that is too long shows. */
  lemma ExcerptShowsAll(keyword: KeywordScore, text: string, goal: string, limit: int) returns (shown: seq<int>)
    requires |text| > limit
    ensures ExcerptShows(keyword, Split(text), goal, limit, Split(Excerpt(keyword, text, goal, limit)), shown)
  {
    var lines, selected := Split(text), Selected(keyword, text, goal, limit);
    shown := Shown(|lines|, selected, 0);
    EntriesComeOut(keyword, text, goal, limit);
    SelectedShowsAll(keyword, text, goal, limit);
    LeastAreLeft(keyword, text, goal, limit);
    Combined(keyword, lines, goal, limit, Split(Excerpt(keyword, text, goal, limit)), Entries(selected, shown), shown);
  }
}
