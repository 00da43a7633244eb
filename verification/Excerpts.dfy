/** Literal excerpts of compact/excerpt.go. */
module Excerpts {
  import opened Text

  /** The keyword part of a line's score for a goal; nothing proved here depends on it. */
  type KeywordScore = (string, string) -> int

  const HEADING := "[literal excerpts; other text omitted]"
  const HEADER := HEADING + "\n"
  const TRUNCATED := " [line truncated]"

  function Max(a: int, b: int): int {
    if a < b then b else a
  }

  function Min(a: int, b: int): int {
    if a < b then a else b
  }

  // ----- clip -----

  /** A cut at `end` splits no rune. */
  predicate RuneBoundary(s: string, end: int) {
    0 <= end <= |s| && (end == 0 || end == |s| || RuneStart(s[end]))
  }

  function CutBack(s: string, end: nat): (cut: nat)
    requires end == 0 || end < |s|
    ensures cut <= end && RuneBoundary(s, cut)
    ensures forall k :: cut < k <= end ==> !RuneStart(s[k])
  {
    if end > 0 && !RuneStart(s[end]) then CutBack(s, end - 1) else end
  }

  function Clip(s: string, limit: int): string {
    if |s| <= limit then s else s[..CutBack(s, Max(0, limit))]
  }

  /** `clip` walks back to the last rune boundary within the limit. */
  method ClipText(s: string, limit: int) returns (clipped: string)
    ensures clipped == Clip(s, limit)
  {
    if |s| <= limit {
      return s;
    }
    var end := Max(0, limit);
    while end > 0 && !RuneStart(s[end])
      invariant 0 <= end && (end == 0 || end < |s|) && CutBack(s, end) == CutBack(s, Max(0, limit))
    {
      end := end - 1;
    }
    return s[..end];
  }

  /** What clip promises: the longest rune-boundary prefix within the limit. */
  lemma ClipIsLongestPrefix(s: string, limit: int, k: int)
    ensures Clip(s, limit) <= s && RuneBoundary(s, |Clip(s, limit)|)
    ensures limit >= 0 ==> |Clip(s, limit)| <= limit
    ensures 0 <= k <= limit && RuneBoundary(s, k) ==> k <= |Clip(s, limit)|
  {
  }

  // ----- ranking -----

  datatype Rank = Rank(index: int, score: int)

  function LineRank(keyword: KeywordScore, lines: seq<string>, goal: string, i: nat): Rank
    requires i < |lines|
  {
    Rank(i, (if i < 2 || i >= |lines| - 2 then 2 else 0) + keyword(lines[i], goal))
  }

  function LineRanks(keyword: KeywordScore, lines: seq<string>, goal: string): (ranks: seq<Rank>)
    ensures |ranks| == |lines|
    ensures forall i :: 0 <= i < |ranks| ==> ranks[i] == LineRank(keyword, lines, goal, i)
  {
    seq(|lines|, i requires 0 <= i < |lines| => LineRank(keyword, lines, goal, i))
  }

  /** Higher score first; among equal scores the earlier line first. */
  predicate Outranks(a: Rank, b: Rank) {
    a.score > b.score || (a.score == b.score && a.index < b.index)
  }

  function InsertStable(ranks: seq<Rank>, r: Rank): (sorted: seq<Rank>)
    ensures |sorted| == |ranks| + 1
  {
    if ranks == [] || ranks[|ranks| - 1].score >= r.score then ranks + [r]
    else InsertStable(ranks[..|ranks| - 1], r) + [ranks[|ranks| - 1]]
  }

  /** slices.SortStableFunc by falling score. */
  function SortStable(ranks: seq<Rank>): (sorted: seq<Rank>)
    ensures |sorted| == |ranks|
  {
    if ranks == [] then []
    else InsertStable(SortStable(ranks[..|ranks| - 1]), ranks[|ranks| - 1])
  }

  ghost predicate Ranked(ranks: seq<Rank>) {
    forall j, k :: 0 <= j < k < |ranks| ==> Outranks(ranks[j], ranks[k])
  }

  lemma {:induction false} InsertContents(ranks: seq<Rank>, r: Rank)
    ensures forall q :: q in InsertStable(ranks, r) <==> q in ranks || q == r
  {
    if ranks == [] || ranks[|ranks| - 1].score >= r.score {
      assert InsertStable(ranks, r) == ranks + [r];
    } else {
      var front, last := ranks[..|ranks| - 1], ranks[|ranks| - 1];
      InsertContents(front, r);
      assert ranks == front + [last] && InsertStable(ranks, r) == InsertStable(front, r) + [last];
    }
  }

  lemma {:induction false} InsertRanked(ranks: seq<Rank>, r: Rank)
    requires Ranked(ranks) && forall q :: q in ranks ==> q.index < r.index
    ensures Ranked(InsertStable(ranks, r))
  {
    if ranks == [] || ranks[|ranks| - 1].score >= r.score {
      assert InsertStable(ranks, r) == ranks + [r];
    } else {
      var front, last := ranks[..|ranks| - 1], ranks[|ranks| - 1];
      InsertRanked(front, r);
      InsertContents(front, r);
      assert forall k :: 0 <= k < |InsertStable(front, r)| ==> InsertStable(front, r)[k] in InsertStable(front, r);
    }
  }

  /** Sorting keeps every line exactly once and leaves no line behind one it outranks. */
  lemma {:induction false} SortedRanks(ranks: seq<Rank>)
    requires forall i :: 0 <= i < |ranks| ==> ranks[i].index == i
    ensures Ranked(SortStable(ranks))
    ensures forall q :: q in SortStable(ranks) <==> q in ranks
  {
    if ranks != [] {
      var front, last := ranks[..|ranks| - 1], ranks[|ranks| - 1];
      assert ranks == front + [last];
      SortedRanks(front);
      InsertRanked(SortStable(front), last);
      InsertContents(SortStable(front), last);
    }
  }

  lemma SortedIndexesLines(lines: seq<string>, ranks: seq<Rank>)
    requires |ranks| == |lines| && forall i :: 0 <= i < |ranks| ==> ranks[i].index == i
    ensures IndexesLines(SortStable(ranks), lines)
  {
    SortedRanks(ranks);
    var sorted := SortStable(ranks);
    forall k | 0 <= k < |sorted|
      ensures 0 <= sorted[k].index < |lines|
    {
      assert sorted[k] in sorted;
    }
  }

  // ----- the budget loop -----

  function Piece(line: string, remaining: int, limit: int): string {
    var piece := Clip(line, Min(remaining - 24, Max(80, limit / 4)));
    if |piece| < |line| then piece + TRUNCATED else piece
  }

  function Entry(index: nat, piece: string): string {
    "L" + Decimal(index + 1) + ": " + piece
  }

  ghost predicate IndexesLines(ranks: seq<Rank>, lines: seq<string>) {
    forall k :: 0 <= k < |ranks| ==> 0 <= ranks[k].index < |lines|
  }

  /** The text shown for the first of the ranks. */
  function FirstEntry(ranks: seq<Rank>, lines: seq<string>, remaining: int, limit: int): string
    requires IndexesLines(ranks, lines) && ranks != []
  {
    Entry(ranks[0].index, Piece(lines[ranks[0].index], remaining, limit))
  }

  /** The selected lines: ranks are taken in order until fewer than 32 bytes remain. */
  function Picks(ranks: seq<Rank>, lines: seq<string>, remaining: int, limit: int): map<int, string>
    requires IndexesLines(ranks, lines)
  {
    if ranks == [] || remaining < 32 then map[]
    else
      var entry := FirstEntry(ranks, lines, remaining, limit);
      map[ranks[0].index := entry] + Picks(ranks[1..], lines, remaining - |entry| - 1, limit)
  }

  /** How many ranks are taken. */
  function PickCount(ranks: seq<Rank>, lines: seq<string>, remaining: int, limit: int): (n: nat)
    requires IndexesLines(ranks, lines)
    ensures n <= |ranks|
  {
    if ranks == [] || remaining < 32 then 0
    else
      var entry := FirstEntry(ranks, lines, remaining, limit);
      1 + PickCount(ranks[1..], lines, remaining - |entry| - 1, limit)
  }

  /** The selected lines in source order. */
  function Emit(n: nat, selected: map<int, string>, i: nat): string
    requires i <= n
    decreases n - i
  {
    if i == n then ""
    else (if i in selected then selected[i] + "\n" else "") + Emit(n, selected, i + 1)
  }

  function Order(keyword: KeywordScore, lines: seq<string>, goal: string): (ranks: seq<Rank>)
    ensures IndexesLines(ranks, lines)
  {
    SortedIndexesLines(lines, LineRanks(keyword, lines, goal));
    SortStable(LineRanks(keyword, lines, goal))
  }

  function Selected(keyword: KeywordScore, text: string, goal: string, limit: int): map<int, string> {
    var lines := Split(text);
    Picks(Order(keyword, lines, goal), lines, Max(0, limit - 64), limit)
  }

  function Excerpt(keyword: KeywordScore, text: string, goal: string, limit: int): string {
    if |text| <= limit then text
    else HEADER + Emit(|Split(text)|, Selected(keyword, text, goal, limit), 0)
  }

  // ----- the code -----

  lemma MapShift(done: map<int, string>, k: int, entry: string, rest: map<int, string>)
    ensures done + (map[k := entry] + rest) == done[k := entry] + rest
  {
  }

  lemma PicksStep(done: map<int, string>, ranks: seq<Rank>, k: nat, lines: seq<string>, remaining: int, limit: int,
                  entry: string)
    requires IndexesLines(ranks, lines) && k < |ranks| && remaining >= 32
    requires entry == FirstEntry(ranks[k..], lines, remaining, limit)
    ensures done + Picks(ranks[k..], lines, remaining, limit)
      == done[ranks[k].index := entry] + Picks(ranks[k + 1..], lines, remaining - |entry| - 1, limit)
  {
    assert ranks[k..][1..] == ranks[k + 1..];
    MapShift(done, ranks[k].index, entry, Picks(ranks[k + 1..], lines, remaining - |entry| - 1, limit));
  }

  method CutPiece(line: string, remaining: int, limit: int) returns (piece: string)
    ensures piece == Piece(line, remaining, limit)
  {
    piece := ClipText(line, Min(remaining - 24, Max(80, limit / 4)));
    if |piece| < |line| {
      piece := piece + TRUNCATED;
    }
  }

  method SelectLines(ranks: seq<Rank>, lines: seq<string>, limit: int) returns (selected: map<int, string>)
    requires IndexesLines(ranks, lines)
    ensures selected == Picks(ranks, lines, Max(0, limit - 64), limit)
  {
    selected := map[];
    var remaining := Max(0, limit - 64);
    var k := 0;
    while k < |ranks| && remaining >= 32
      invariant 0 <= k <= |ranks|
      invariant selected + Picks(ranks[k..], lines, remaining, limit) == Picks(ranks, lines, Max(0, limit - 64), limit)
      decreases |ranks| - k
    {
      var piece := CutPiece(lines[ranks[k].index], remaining, limit);
      var entry := Entry(ranks[k].index, piece);
      PicksStep(selected, ranks, k, lines, remaining, limit, entry);
      selected := selected[ranks[k].index := entry];
      remaining := remaining - (|entry| + 1);
      k := k + 1;
    }
  }

  method RankLines(keyword: KeywordScore, lines: seq<string>, goal: string) returns (ranks: seq<Rank>)
    ensures ranks == Order(keyword, lines, goal)
  {
    ranks := [];
    for i := 0 to |lines|
      invariant ranks == LineRanks(keyword, lines, goal)[..i]
    {
      ranks := ranks + [LineRank(keyword, lines, goal, i)];
    }
    assert ranks == LineRanks(keyword, lines, goal);
    ranks := SortStable(ranks);
  }

  method EmitLines(n: nat, selected: map<int, string>) returns (b: string)
    ensures b == HEADER + Emit(n, selected, 0)
  {
    b := HEADER;
    for i := 0 to n
      invariant b + Emit(n, selected, i) == HEADER + Emit(n, selected, 0)
    {
      if i in selected {
        assert b + (selected[i] + "\n" + Emit(n, selected, i + 1)) == b + selected[i] + "\n" + Emit(n, selected, i + 1);
        b := b + selected[i] + "\n";
      } else {
        assert "" + Emit(n, selected, i + 1) == Emit(n, selected, i + 1);
      }
    }
  }

  /** `excerpt` */
  method MakeExcerpt(keyword: KeywordScore, text: string, goal: string, limit: int) returns (b: string)
    ensures b == Excerpt(keyword, text, goal, limit)
  {
    if |text| <= limit {
      return text;
    }
    var lines := Split(text);
    var ranks := RankLines(keyword, lines, goal);
    var selected := SelectLines(ranks, lines, limit);
    b := EmitLines(|lines|, selected);
  }

  // ----- the byte bound -----

  lemma {:induction false} EmitMore(n: nat, selected: map<int, string>, i: nat, k: int, entry: string)
    requires i <= n && k !in selected
    ensures |Emit(n, selected[k := entry], i)| == |Emit(n, selected, i)| + if i <= k < n then |entry| + 1 else 0
    decreases n - i
  {
    if i < n {
      EmitMore(n, selected, i + 1, k, entry);
    }
  }

  function Indexes(ranks: seq<Rank>): set<int> {
    set r | r in ranks :: r.index
  }

  lemma IndexesCons(ranks: seq<Rank>, n: nat)
    requires n < |ranks|
    ensures Indexes(ranks[..n + 1]) == {ranks[0].index} + Indexes(ranks[1..][..n])
  {
    assert ranks[..n + 1] == [ranks[0]] + ranks[1..][..n];
    forall r
      ensures r in ranks[..n + 1] <==> r == ranks[0] || r in ranks[1..][..n]
    {
    }
  }

  /** The shown lines are those of a prefix of the ranks. */
  lemma {:induction false} PickedKeys(ranks: seq<Rank>, lines: seq<string>, remaining: int, limit: int)
    requires IndexesLines(ranks, lines)
    ensures Picks(ranks, lines, remaining, limit).Keys == Indexes(ranks[..PickCount(ranks, lines, remaining, limit)])
    decreases |ranks|
  {
    if ranks != [] && remaining >= 32 {
      var rest := remaining - |FirstEntry(ranks, lines, remaining, limit)| - 1;
      PickedKeys(ranks[1..], lines, rest, limit);
      IndexesCons(ranks, PickCount(ranks[1..], lines, rest, limit));
    }
  }

  ghost predicate DistinctIndexes(ranks: seq<Rank>) {
    forall j, k :: 0 <= j < k < |ranks| ==> ranks[j].index != ranks[k].index
  }

  lemma EntryLength(line: string, index: nat, remaining: int, limit: int)
    requires remaining >= 32 && index + 1 < Pow10(28)
    ensures |Entry(index, Piece(line, remaining, limit))| + 1 <= remaining + 25
  {
    DecimalLength(index + 1, 28);
    ClipIsLongestPrefix(line, Min(remaining - 24, Max(80, limit / 4)), 0);
  }

  lemma RestOmitsFirst(ranks: seq<Rank>, lines: seq<string>, remaining: int, limit: int)
    requires IndexesLines(ranks, lines) && DistinctIndexes(ranks) && ranks != []
    ensures ranks[0].index !in Picks(ranks[1..], lines, remaining, limit)
  {
    PickedKeys(ranks[1..], lines, remaining, limit);
    forall r | r in ranks[1..]
      ensures r.index != ranks[0].index
    {
      var k :| 0 <= k < |ranks[1..]| && ranks[1..][k] == r;
      assert r == ranks[k + 1];
    }
  }

  lemma PutFirst(first: int, entry: string, rest: map<int, string>)
    requires first !in rest
    ensures map[first := entry] + rest == rest[first := entry]
  {
  }

  /** One selection can overdraw the remaining bytes by at most 25. */
  lemma {:induction false} PicksLength(ranks: seq<Rank>, lines: seq<string>, remaining: int, limit: int)
    requires IndexesLines(ranks, lines) && DistinctIndexes(ranks)
    requires |lines| < Pow10(28) && remaining >= -25
    ensures |Emit(|lines|, Picks(ranks, lines, remaining, limit), 0)| <= Max(0, remaining + 25)
    decreases |ranks|
  {
    if ranks == [] || remaining < 32 {
      EmitNothing(|lines|, 0);
    } else {
      var first, entry := ranks[0].index, FirstEntry(ranks, lines, remaining, limit);
      EntryLength(lines[first], first, remaining, limit);
      var rest := Picks(ranks[1..], lines, remaining - |entry| - 1, limit);
      PicksLength(ranks[1..], lines, remaining - |entry| - 1, limit);
      RestOmitsFirst(ranks, lines, remaining - |entry| - 1, limit);
      PutFirst(first, entry, rest);
      EmitMore(|lines|, rest, 0, first, entry);
    }
  }

  lemma {:induction false} EmitNothing(n: nat, i: nat)
    requires i <= n
    ensures Emit(n, map[], i) == ""
    decreases n - i
  {
    if i < n {
      EmitNothing(n, i + 1);
    }
  }

  lemma OrderDistinct(keyword: KeywordScore, lines: seq<string>, goal: string)
    ensures var ranks := Order(keyword, lines, goal);
      Ranked(ranks) && DistinctIndexes(ranks) && |ranks| == |lines|
    ensures forall i :: 0 <= i < |lines| ==> LineRank(keyword, lines, goal, i) in Order(keyword, lines, goal)
    ensures forall r :: r in Order(keyword, lines, goal) ==>
      0 <= r.index < |lines| && r == LineRank(keyword, lines, goal, r.index)
  {
    var all, ranks := LineRanks(keyword, lines, goal), Order(keyword, lines, goal);
    SortedRanks(all);
    forall i | 0 <= i < |lines|
      ensures LineRank(keyword, lines, goal, i) in ranks
    {
      assert all[i] in all;
    }
    forall j, k | 0 <= j < k < |ranks|
      ensures ranks[j].index != ranks[k].index
    {
      assert ranks[j] in ranks && ranks[k] in ranks && ranks[j] in all && ranks[k] in all;
      assert Outranks(ranks[j], ranks[k]);
    }
  }

  /**
   The byte bound, with the exact condition.  An excerpt within its limit is what every
   caller relies on (limits 16000, 1600 and 320); a limit below the 39 bytes of the header
   is exceeded as soon as the text itself is longer than the limit.
   */
  lemma ExcerptBound(keyword: KeywordScore, text: string, goal: string, limit: int)
    requires |text| + 1 < Pow10(28)
    ensures |Excerpt(keyword, text, goal, limit)| <= limit <==> |text| <= limit || limit >= 39
  {
    if |text| > limit {
      var lines := Split(text);
      SplitLength(text);
      OrderDistinct(keyword, lines, goal);
      PicksLength(Order(keyword, lines, goal), lines, Max(0, limit - 64), limit);
      if limit < 96 {
        EmitNothing(|lines|, 0);
      }
      assert |HEADER| == 39;
    }
  }

  // ----- literalness and dominance -----

  /** `entry` shows source line `i`, whole or cut at a rune boundary and marked. */
  ghost predicate Literal(entry: string, line: string, i: nat) {
    || entry == Entry(i, line)
    || exists cut :: 0 <= cut < |line| && RuneBoundary(line, cut) && entry == Entry(i, line[..cut] + TRUNCATED)
  }

  lemma PieceLiteral(line: string, i: nat, remaining: int, limit: int)
    ensures Literal(Entry(i, Piece(line, remaining, limit)), line, i)
  {
    var piece := Clip(line, Min(remaining - 24, Max(80, limit / 4)));
    if |piece| < |line| {
      assert RuneBoundary(line, |piece|) && piece == line[..|piece|];
    }
  }

  lemma {:induction false} PickLiteral(ranks: seq<Rank>, lines: seq<string>, remaining: int, limit: int, i: int)
    requires IndexesLines(ranks, lines) && i in Picks(ranks, lines, remaining, limit)
    ensures 0 <= i < |lines| && Literal(Picks(ranks, lines, remaining, limit)[i], lines[i], i)
    decreases |ranks|
  {
    var rest := remaining - |FirstEntry(ranks, lines, remaining, limit)| - 1;
    if i in Picks(ranks[1..], lines, rest, limit) {
      PickLiteral(ranks[1..], lines, rest, limit, i);
    } else {
      PieceLiteral(lines[ranks[0].index], ranks[0].index, remaining, limit);
    }
  }

  lemma PicksLiteral(ranks: seq<Rank>, lines: seq<string>, remaining: int, limit: int)
    requires IndexesLines(ranks, lines)
    ensures forall i :: i in Picks(ranks, lines, remaining, limit) ==>
      0 <= i < |lines| && Literal(Picks(ranks, lines, remaining, limit)[i], lines[i], i)
  {
    forall i | i in Picks(ranks, lines, remaining, limit)
      ensures 0 <= i < |lines| && Literal(Picks(ranks, lines, remaining, limit)[i], lines[i], i)
    {
      PickLiteral(ranks, lines, remaining, limit, i);
    }
  }

  lemma PrefixOutranks(ranks: seq<Rank>, n: nat, a: Rank, b: Rank)
    requires Ranked(ranks) && n <= |ranks|
    requires a.index in Indexes(ranks[..n]) && b.index !in Indexes(ranks[..n])
    requires a in ranks && b in ranks && DistinctIndexes(ranks)
    ensures Outranks(a, b)
  {
    var r :| r in ranks[..n] && r.index == a.index;
    var i :| 0 <= i < n && ranks[i] == r;
    var k :| 0 <= k < |ranks| && ranks[k] == a;
    assert k == i;
    var l :| 0 <= l < |ranks| && ranks[l] == b;
    assert forall m :: 0 <= m < n ==> ranks[m] in ranks[..n];
  }

  lemma SelectedDominates(keyword: KeywordScore, text: string, goal: string, limit: int, i: int, j: int)
    requires i in Selected(keyword, text, goal, limit)
    ensures 0 <= i < |Split(text)| && Literal(Selected(keyword, text, goal, limit)[i], Split(text)[i], i)
    ensures 0 <= j < |Split(text)| && j !in Selected(keyword, text, goal, limit) ==>
      Outranks(LineRank(keyword, Split(text), goal, i), LineRank(keyword, Split(text), goal, j))
  {
    var lines := Split(text);
    var ranks := Order(keyword, lines, goal);
    var remaining := Max(0, limit - 64);
    PicksLiteral(ranks, lines, remaining, limit);
    if 0 <= j < |lines| && j !in Selected(keyword, text, goal, limit) {
      OrderDistinct(keyword, lines, goal);
      PickedKeys(ranks, lines, remaining, limit);
      PrefixOutranks(ranks, PickCount(ranks, lines, remaining, limit),
                     LineRank(keyword, lines, goal, i), LineRank(keyword, lines, goal, j));
    }
  }

  // ----- the lines that come out -----

  lemma {:induction false} SplitLine(line: string, rest: string)
    requires '\n' !in line
    ensures Split(line + "\n" + rest) == [line] + Split(rest)
  {
    var text := line + "\n" + rest;
    if line == "" {
      assert text[1..] == rest;
    } else {
      assert text[1..] == line[1..] + "\n" + rest;
      SplitLine(line[1..], rest);
      assert [line[0]] + line[1..] == line;
    }
  }

  /** An entry stays on its line. */
  lemma LiteralOnOneLine(entry: string, line: string, i: nat)
    requires Literal(entry, line, i) && '\n' !in line
    ensures '\n' !in entry
  {
    TruncatedOnOneLine(TRUNCATED);
    if entry != Entry(i, line) {
      var cut :| 0 <= cut < |line| && RuneBoundary(line, cut) && entry == Entry(i, line[..cut] + TRUNCATED);
      EntryOnOneLine(i, line[..cut] + TRUNCATED);
    } else {
      EntryOnOneLine(i, line);
    }
  }

  lemma TruncatedOnOneLine(mark: string)
    requires mark == TRUNCATED
    ensures '\n' !in mark
  {
  }

  lemma EntryOnOneLine(i: nat, piece: string)
    requires '\n' !in piece
    ensures '\n' !in Entry(i, piece)
  {
    assert '\n' !in "L" && '\n' !in Decimal(i + 1) && '\n' !in ": ";
  }

  /** The selected indexes from `i` on. */
  function Shown(n: nat, selected: map<int, string>, i: nat): (shown: seq<int>)
    requires i <= n
    ensures forall k :: 0 <= k < |shown| ==> i <= shown[k] < n && shown[k] in selected
    decreases n - i
  {
    if i == n then []
    else if i in selected then [i] + Shown(n, selected, i + 1)
    else Shown(n, selected, i + 1)
  }

  ghost predicate Rising(shown: seq<int>) {
    forall j, k :: 0 <= j < k < |shown| ==> shown[j] < shown[k]
  }

  lemma {:induction false} ShownRise(n: nat, selected: map<int, string>, i: nat)
    requires i <= n
    ensures Rising(Shown(n, selected, i))
    decreases n - i
  {
    if i < n {
      ShownRise(n, selected, i + 1);
    }
  }

  lemma {:induction false} ShownAll(n: nat, selected: map<int, string>, i: nat, k: int)
    requires i <= k < n && k in selected
    ensures k in Shown(n, selected, i)
    decreases n - i
  {
    if i < k {
      ShownAll(n, selected, i + 1, k);
    }
  }

  function Entries(selected: map<int, string>, shown: seq<int>): (entries: seq<string>)
    requires forall k :: 0 <= k < |shown| ==> shown[k] in selected
    ensures |entries| == |shown|
  {
    seq(|shown|, k requires 0 <= k < |shown| => selected[shown[k]])
  }

  lemma EntriesCons(selected: map<int, string>, i: int, shown: seq<int>)
    requires i in selected && forall k :: 0 <= k < |shown| ==> shown[k] in selected
    ensures Entries(selected, [i] + shown) == [selected[i]] + Entries(selected, shown)
  {
  }

  lemma {:induction false} EmittedLines(n: nat, selected: map<int, string>, i: nat)
    requires i <= n && forall k :: k in selected ==> '\n' !in selected[k]
    ensures Split(Emit(n, selected, i)) == Entries(selected, Shown(n, selected, i)) + [""]
    decreases n - i
  {
    if i < n {
      EmittedLines(n, selected, i + 1);
      if i in selected {
        SplitLine(selected[i], Emit(n, selected, i + 1));
        EntriesCons(selected, i, Shown(n, selected, i + 1));
      } else {
        assert Emit(n, selected, i) == Emit(n, selected, i + 1);
      }
    }
  }

  /** The lines of an excerpt: a heading, shown source lines in their order, and a final line break. */
  ghost predicate Presents(out: seq<string>, lines: seq<string>, shown: seq<int>) {
    && |out| == |shown| + 2 && out[|out| - 1] == ""
    && out[0] == "[literal excerpts; other text omitted]"
    && Rising(shown)
    && forall k :: 0 <= k < |shown| ==> 0 <= shown[k] < |lines| && Literal(out[k + 1], lines[shown[k]], shown[k])
  }

  lemma HeadingLine(heading: string, rest: string)
    requires heading == HEADING
    ensures Split(HEADER + rest) == [heading] + Split(rest)
  {
    assert '\n' !in heading;
    SplitLine(heading, rest);
  }

  lemma OneLineEach(lines: seq<string>, selected: map<int, string>)
    requires forall l :: l in lines ==> '\n' !in l
    requires forall i :: i in selected ==> 0 <= i < |lines| && Literal(selected[i], lines[i], i)
    ensures forall i :: i in selected ==> '\n' !in selected[i]
  {
    forall i | i in selected
      ensures '\n' !in selected[i]
    {
      assert lines[i] in lines;
      LiteralOnOneLine(selected[i], lines[i], i);
    }
  }

  lemma OutLines(lines: seq<string>, selected: map<int, string>)
    requires forall i :: i in selected ==> '\n' !in selected[i]
    ensures Split(HEADER + Emit(|lines|, selected, 0))
      == [HEADING] + Entries(selected, Shown(|lines|, selected, 0)) + [""]
  {
    EmittedLines(|lines|, selected, 0);
    HeadingLine(HEADING, Emit(|lines|, selected, 0));
  }

  lemma LiteralsPresent(lines: seq<string>, selected: map<int, string>, out: seq<string>)
    requires forall i :: i in selected ==> 0 <= i < |lines| && Literal(selected[i], lines[i], i)
    requires out == [HEADING] + Entries(selected, Shown(|lines|, selected, 0)) + [""]
    ensures Presents(out, lines, Shown(|lines|, selected, 0))
    ensures var shown := Shown(|lines|, selected, 0); out[1..|shown| + 1] == Entries(selected, shown)
  {
    ShownRise(|lines|, selected, 0);
  }

  lemma EntriesComeOut(keyword: KeywordScore, text: string, goal: string, limit: int)
    requires |text| > limit
    ensures var lines, selected := Split(text), Selected(keyword, text, goal, limit);
      var shown, out := Shown(|lines|, selected, 0), Split(Excerpt(keyword, text, goal, limit));
      Presents(out, lines, shown) && out[1..|shown| + 1] == Entries(selected, shown)
  {
    SplitJoin(text);
    PicksLiteral(Order(keyword, Split(text), goal), Split(text), Max(0, limit - 64), limit);
    OneLineEach(Split(text), Selected(keyword, text, goal, limit));
    OutLines(Split(text), Selected(keyword, text, goal, limit));
    LiteralsPresent(Split(text), Selected(keyword, text, goal, limit), Split(Excerpt(keyword, text, goal, limit)));
  }

  /**
   Splitting the excerpt of a text that is too long gives the heading, the shown lines and
   the empty rest: their numbers strictly ascend, each is its source line, whole or cut at
   a rune boundary and marked, and no omitted line outranks a shown one.
   */
  lemma ExcerptLiteralAndDominant(keyword: KeywordScore, text: string, goal: string, limit: int)
    returns (shown: seq<int>)
    requires |text| > limit
    ensures JoinLines(Split(text)) == text
    ensures Presents(Split(Excerpt(keyword, text, goal, limit)), Split(text), shown)
    ensures forall i, j :: i in shown && 0 <= j < |Split(text)| && j !in shown ==>
      Outranks(LineRank(keyword, Split(text), goal, i), LineRank(keyword, Split(text), goal, j))
  {
    SplitJoin(text);
    shown := Shown(|Split(text)|, Selected(keyword, text, goal, limit), 0);
    EntriesComeOut(keyword, text, goal, limit);
    forall i, j | i in shown && 0 <= j < |Split(text)| && j !in shown
      ensures Outranks(LineRank(keyword, Split(text), goal, i), LineRank(keyword, Split(text), goal, j))
    {
      if j in Selected(keyword, text, goal, limit) {
        ShownAll(|Split(text)|, Selected(keyword, text, goal, limit), 0, j);
      }
      SelectedDominates(keyword, text, goal, limit, i, j);
    }
  }

  // ----- valid text stays valid -----

  lemma EntryValid(i: nat, piece: string)
    requires ValidUtf8(piece)
    ensures ValidUtf8(Entry(i, piece))
  {
    AsciiPrepend("L" + Decimal(i + 1) + ": ", piece);
  }

  lemma CutValid(line: string, cut: nat)
    requires ValidUtf8(line) && cut < |line| && RuneBoundary(line, cut)
    ensures ValidUtf8(line[..cut])
  {
    if cut > 0 {
      CutAtRuneStart(line, cut);
    } else {
      assert line[..cut] == "";
    }
  }

  lemma LiteralValid(entry: string, line: string, i: nat)
    requires ValidUtf8(line) && Literal(entry, line, i)
    ensures ValidUtf8(entry)
  {
    if entry == Entry(i, line) {
      EntryValid(i, line);
    } else {
      var cut :| 0 <= cut < |line| && RuneBoundary(line, cut) && entry == Entry(i, line[..cut] + TRUNCATED);
      CutValid(line, cut);
      AsciiAppend(line[..cut], TRUNCATED);
      EntryValid(i, line[..cut] + TRUNCATED);
    }
  }

  lemma {:induction false} EmitValid(n: nat, selected: map<int, string>, i: nat)
    requires i <= n && forall k :: k in selected ==> ValidUtf8(selected[k])
    ensures ValidUtf8(Emit(n, selected, i))
    decreases n - i
  {
    if i < n {
      EmitValid(n, selected, i + 1);
      if i in selected {
        AsciiAppend(selected[i], "\n");
        ValidConcat(selected[i] + "\n", Emit(n, selected, i + 1));
      } else {
        assert "" + Emit(n, selected, i + 1) == Emit(n, selected, i + 1);
      }
    }
  }

  lemma ExcerptValid(keyword: KeywordScore, text: string, goal: string, limit: int)
    requires ValidUtf8(text)
    ensures ValidUtf8(Excerpt(keyword, text, goal, limit))
  {
    if |text| > limit {
      var lines, selected := Split(text), Selected(keyword, text, goal, limit);
      SplitValid(text);
      PicksLiteral(Order(keyword, lines, goal), lines, Max(0, limit - 64), limit);
      forall k | k in selected
        ensures ValidUtf8(selected[k])
      {
        assert lines[k] in lines;
        LiteralValid(selected[k], lines[k], k);
      }
      EmitValid(|lines|, selected, 0);
      AsciiPrepend(HEADER, Emit(|lines|, selected, 0));
    }
  }
}
