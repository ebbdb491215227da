// parseBenchCapture: aggregates the RPC lines of a log in which every line may have been written twice.
module BenchCapture {
  import opened Wrappers

  // What the patterns find in a line: a tool, a duration and, on newer lines, the payload's bytes and tokens.
  datatype Call = Call(tool: string, ms: nat, payload: Payload)

  // Lines of older logs have no payload fields.
  datatype Payload = NoPayload | Payload(bytes: nat, tokens: nat)

  datatype Stats = Stats(count: nat, sumMs: nat, sumBytes: nat, sumTokens: nat)

  datatype Output = Output(total: Stats, p50: Option<real>, p99: Option<nat>, perTool: map<string, Stats>)

  type Patterns = string -> Option<Call>

  // ---------------------------------------------------------------------------------------------
  // Collapsing duplicates.

  // The lines counted. A line equal to the one before is skipped, and then the one before is forgotten.
  function Collapse(prev: string, lines: seq<string>): seq<string>
    decreases |lines|
  {
    if lines == [] then []
    else if lines[0] == prev then Collapse("", lines[1..])
    else [lines[0]] + Collapse(lines[0], lines[1..])
  }

  // What the scan remembers at the end.
  function Remembered(prev: string, lines: seq<string>): string
    decreases |lines|
  {
    if lines == [] then prev else Remembered(if lines[0] == prev then "" else lines[0], lines[1..])
  }

  function Doubled(lines: seq<string>): seq<string> {
    if lines == [] then [] else [lines[0], lines[0]] + Doubled(lines[1..])
  }

  function Repeat(line: string, n: nat): (out: seq<string>)
    ensures |out| == n && forall i :: 0 <= i < n ==> out[i] == line
  {
    seq(n, _ => line)
  }

  lemma {:induction false} CollapseSnoc(prev: string, lines: seq<string>, line: string)
    ensures Collapse(prev, lines + [line]) ==
      Collapse(prev, lines) + if line == Remembered(prev, lines) then [] else [line]
    ensures Remembered(prev, lines + [line]) == if line == Remembered(prev, lines) then "" else line
    decreases |lines|
  {
    if lines == [] {
      assert [line][1..] == [];
    } else {
      assert (lines + [line])[1..] == lines[1..] + [line];
      CollapseSnoc(if lines[0] == prev then "" else lines[0], lines[1..], line);
    }
  }

  // Logging every line twice changes nothing: the collapse gives back the lines once each, equal neighbours too.
  lemma {:induction false} DoublingUndone(lines: seq<string>)
    requires "" !in lines
    ensures Collapse("", Doubled(lines)) == lines
  {
    if lines != [] {
      var line, rest, all := lines[0], lines[1..], Doubled(lines);
      assert all[0] == line && all[1..][0] == line && all[1..][1..] == Doubled(rest);
      DoublingUndone(rest);
      assert Collapse(line, all[1..]) == Collapse("", Doubled(rest));
      assert lines == [line] + rest;
    }
  }

  lemma PairCountsOnce(prev: string, line: string, rest: seq<string>)
    requires line != prev
    ensures Collapse(prev, [line, line] + rest) == [line] + Collapse("", rest)
  {
    var all := [line, line] + rest;
    assert all[1..][0] == line && all[1..][1..] == rest;
  }

  lemma {:induction false} PairsCountOnce(prev: string, line: string, k: nat, rest: seq<string>)
    requires line != "" && line != prev
    ensures Collapse(prev, Repeat(line, k + k) + rest) == Repeat(line, k) + Collapse(if k == 0 then prev else "", rest)
    decreases k
  {
    if k == 0 {
      assert Repeat(line, 0) + rest == rest;
    } else {
      var j := k - 1;
      var tail := Repeat(line, j + j) + rest;
      assert Repeat(line, k + k) + rest == [line, line] + tail;
      PairCountsOnce(prev, line, tail);
      PairsCountOnce("", line, j, rest);
      OneMore(line, j, Collapse("", rest));
    }
  }

  lemma OneMore(line: string, n: nat, rest: seq<string>)
    ensures [line] + (Repeat(line, n) + rest) == Repeat(line, n + 1) + rest
    ensures Repeat(line, n) + ([line] + rest) == Repeat(line, n + 1) + rest
  {
  }

  // A run of n equal lines that the scan enters remembering another line counts ceil(n / 2) times.
  lemma RunCountsHalf(prev: string, line: string, n: nat, rest: seq<string>)
    requires line != "" && line != prev
    ensures Collapse(prev, Repeat(line, n) + rest) ==
      Repeat(line, (n + 1) / 2) + Collapse(if n == 0 then prev else if n % 2 == 1 then line else "", rest)
  {
    var k := n / 2;
    if n % 2 == 0 {
      PairsCountOnce(prev, line, k, rest);
    } else {
      PairsCountOnce(prev, line, k, [line] + rest);
      OneMore(line, k + k, rest);
      OneMore(line, k, Collapse(line, rest));
      assert ([line] + rest)[1..] == rest;
    }
  }

  // A genuine triple counts twice.
  lemma TripleCountsTwice(line: string)
    requires line != ""
    ensures Collapse("", [line, line, line]) == [line, line]
  {
    RunCountsHalf("", line, 3, []);
    assert Repeat(line, 3) + [] == [line, line, line] && Repeat(line, 2) + [] == [line, line];
  }

  lemma {:induction false} CollapseIsShorter(prev: string, lines: seq<string>)
    ensures |Collapse(prev, lines)| <= |lines|
    decreases |lines|
  {
    if lines != [] {
      CollapseIsShorter("", lines[1..]);
      CollapseIsShorter(lines[0], lines[1..]);
    }
  }

  predicate NoNeighboursEqual(lines: seq<string>) {
    forall i :: 0 < i < |lines| ==> lines[i] != lines[i - 1]
  }

  lemma NeighboursOfTail(lines: seq<string>)
    requires |lines| > 1
    ensures NoNeighboursEqual(lines) <==> lines[1] != lines[0] && NoNeighboursEqual(lines[1..])
  {
    var rest := lines[1..];
    if NoNeighboursEqual(rest) {
      forall i | 1 < i < |lines| ensures lines[i] != lines[i - 1] {
        assert rest[i - 1] == lines[i] && rest[i - 1 - 1] == lines[i - 1];
      }
    }
    if NoNeighboursEqual(lines) {
      forall i | 0 < i < |rest| ensures rest[i] != rest[i - 1] {
        assert lines[i + 1] == rest[i] && lines[i + 1 - 1] == rest[i - 1];
      }
    }
  }

  // A log written once is counted in full if and only if no two neighbouring lines are equal.
  lemma {:induction false} CountedInFullIff(prev: string, lines: seq<string>)
    ensures Collapse(prev, lines) == lines <==> (lines == [] || lines[0] != prev) && NoNeighboursEqual(lines)
    decreases |lines|
  {
    if lines != [] {
      var line, rest := lines[0], lines[1..];
      assert lines == [line] + rest;
      if line == prev {
        CollapseIsShorter("", rest);
      } else {
        CountedInFullIff(line, rest);
        assert ([line] + Collapse(line, rest))[1..] == Collapse(line, rest);
        if |lines| > 1 {
          NeighboursOfTail(lines);
        }
      }
    }
  }

  // ---------------------------------------------------------------------------------------------
  // Sums.

  function Calls(patterns: Patterns, lines: seq<string>): seq<Call> {
    if lines == [] then []
    else Calls(patterns, lines[..|lines| - 1]) +
         match patterns(lines[|lines| - 1]) case Some(c) => [c] case None => []
  }

  lemma FoundSnoc(patterns: Patterns, lines: seq<string>, line: string)
    ensures patterns(line).None? ==> Calls(patterns, lines + [line]) == Calls(patterns, lines)
    ensures patterns(line).Some? ==> Calls(patterns, lines + [line]) == Calls(patterns, lines) + [patterns(line).value]
  {
    assert (lines + [line])[..|lines|] == lines;
    assert Calls(patterns, lines) + [] == Calls(patterns, lines);
  }

  // What one call adds to each of the sums.
  function One(c: Call): nat { 1 }
  function Ms(c: Call): nat { c.ms }
  function Bytes(c: Call): nat { if c.payload.Payload? then c.payload.bytes else 0 }
  function Tokens(c: Call): nat { if c.payload.Payload? then c.payload.tokens else 0 }

  function Total(weight: Call -> nat, calls: seq<Call>): nat {
    if calls == [] then 0 else Total(weight, calls[..|calls| - 1]) + weight(calls[|calls| - 1])
  }

  function StatsOf(calls: seq<Call>): Stats {
    Stats(Total(One, calls), Total(Ms, calls), Total(Bytes, calls), Total(Tokens, calls))
  }

  // The calls of one tool.
  function Of(calls: seq<Call>, tool: string): seq<Call> {
    if calls == [] then []
    else Of(calls[..|calls| - 1], tool) + if calls[|calls| - 1].tool == tool then [calls[|calls| - 1]] else []
  }

  function Tools(calls: seq<Call>): set<string> {
    set c | c in calls :: c.tool
  }

  function ByTool<S>(summary: seq<Call> -> S, calls: seq<Call>): map<string, S> {
    map tool | tool in Tools(calls) :: summary(Of(calls, tool))
  }

  function PerTool(calls: seq<Call>): map<string, Stats> {
    ByTool(StatsOf, calls)
  }

  function Durations(calls: seq<Call>): (out: seq<nat>)
    ensures |out| == |calls| && forall i :: 0 <= i < |calls| ==> out[i] == calls[i].ms
  {
    seq(|calls|, i requires 0 <= i < |calls| => calls[i].ms)
  }

  lemma TotalSnoc(weight: Call -> nat, calls: seq<Call>, c: Call)
    ensures Total(weight, calls + [c]) == Total(weight, calls) + weight(c)
  {
    assert (calls + [c])[..|calls|] == calls;
  }

  lemma OfSnoc(calls: seq<Call>, c: Call, tool: string)
    ensures Of(calls + [c], tool) == if c.tool == tool then Of(calls, tool) + [c] else Of(calls, tool)
  {
    assert (calls + [c])[..|calls|] == calls;
    assert Of(calls, tool) + [] == Of(calls, tool);
  }

  lemma ToolsSnoc(calls: seq<Call>, c: Call)
    ensures Tools(calls + [c]) == Tools(calls) + {c.tool} && Durations(calls + [c]) == Durations(calls) + [c.ms]
  {
    assert forall d :: d in calls + [c] <==> d in calls || d == c;
  }

  lemma {:induction false} NoneOf(calls: seq<Call>, tool: string)
    requires tool !in Tools(calls)
    ensures Of(calls, tool) == []
  {
    if calls != [] {
      var init, c := calls[..|calls| - 1], calls[|calls| - 1];
      assert calls == init + [c] && c in calls;
      OfSnoc(init, c, tool);
      ToolsSnoc(init, c);
      NoneOf(init, tool);
    }
  }

  // The statistics of one more call.
  function Plus(s: Stats, c: Call): Stats {
    Stats(s.count + One(c), s.sumMs + Ms(c), s.sumBytes + Bytes(c), s.sumTokens + Tokens(c))
  }

  lemma StatsSnoc(calls: seq<Call>, c: Call)
    ensures StatsOf(calls + [c]) == Plus(StatsOf(calls), c)
  {
    TotalSnoc(One, calls, c);
    TotalSnoc(Ms, calls, c);
    TotalSnoc(Bytes, calls, c);
    TotalSnoc(Tokens, calls, c);
  }

  lemma ByToolSnoc<S>(summary: seq<Call> -> S, calls: seq<Call>, c: Call)
    ensures ByTool(summary, calls + [c]) == ByTool(summary, calls)[c.tool := summary(Of(calls, c.tool) + [c])]
  {
    ToolsSnoc(calls, c);
    var more := calls + [c];
    forall tool | tool in Tools(more)
      ensures Of(more, tool) == if c.tool == tool then Of(calls, tool) + [c] else Of(calls, tool)
    {
      OfSnoc(calls, c, tool);
    }
  }

  predicate Distinct(tools: seq<string>) {
    forall i, j :: 0 <= i < j < |tools| ==> tools[i] != tools[j]
  }

  // One sum of the per-tool statistics over the listed tools.
  function SumOver(weight: Call -> nat, calls: seq<Call>, tools: seq<string>): nat
    decreases |tools|
  {
    if tools == [] then 0 else SumOver(weight, calls, tools[1..]) + Total(weight, Of(calls, tools[0]))
  }

  lemma {:induction false} SumOverSnoc(weight: Call -> nat, calls: seq<Call>, c: Call, tools: seq<string>)
    requires Distinct(tools)
    ensures SumOver(weight, calls + [c], tools) ==
      SumOver(weight, calls, tools) + if c.tool in tools then weight(c) else 0
    decreases |tools|
  {
    if tools != [] {
      var tool, rest := tools[0], tools[1..];
      assert tools == [tool] + rest;
      SumOverSnoc(weight, calls, c, rest);
      OfSnoc(calls, c, tool);
      TotalSnoc(weight, Of(calls, tool), c);
      assert forall i :: 0 <= i < |rest| ==> rest[i] == tools[i + 1] && rest[i] != tool;
    }
  }

  // Per-tool counts and sums add up to the totals, however the tools are listed.
  lemma {:induction false} PerToolAddsUp(weight: Call -> nat, calls: seq<Call>, tools: seq<string>)
    requires Distinct(tools) && forall c :: c in calls ==> c.tool in tools
    ensures SumOver(weight, calls, tools) == Total(weight, calls)
  {
    if calls == [] {
      NoCalls(weight, calls, tools);
    } else {
      var init, c := calls[..|calls| - 1], calls[|calls| - 1];
      assert calls == init + [c] && c in calls;
      PerToolAddsUp(weight, init, tools);
      SumOverSnoc(weight, init, c, tools);
      TotalSnoc(weight, init, c);
    }
  }

  lemma {:induction false} NoCalls(weight: Call -> nat, calls: seq<Call>, tools: seq<string>)
    requires calls == []
    ensures SumOver(weight, calls, tools) == 0
    decreases |tools|
  {
    if tools != [] {
      NoCalls(weight, calls, tools[1..]);
      assert Of(calls, tools[0]) == [];
    }
  }

  // What one call counts, and that statistics add up over any split of the calls.
  lemma StatsOfOne(c: Call)
    ensures StatsOf([c]) == Stats(1, c.ms, if c.payload == NoPayload then 0 else c.payload.bytes,
                                  if c.payload == NoPayload then 0 else c.payload.tokens)
  {
    var none := [];
    StatsSnoc(none, c);
    assert none + [c] == [c];
  }

  lemma {:induction false} StatsOfBoth(a: seq<Call>, b: seq<Call>)
    ensures StatsOf(a + b) == Stats(StatsOf(a).count + StatsOf(b).count, StatsOf(a).sumMs + StatsOf(b).sumMs,
                                    StatsOf(a).sumBytes + StatsOf(b).sumBytes,
                                    StatsOf(a).sumTokens + StatsOf(b).sumTokens)
  {
    if b == [] {
      assert a + b == a;
    } else {
      var init, c := b[..|b| - 1], b[|b| - 1];
      assert b == init + [c] && a + b == (a + init) + [c];
      StatsOfBoth(a, init);
      StatsSnoc(a + init, c);
      StatsSnoc(init, c);
    }
  }

  // The calls of one tool are all of that tool, as often as they were made.
  lemma {:induction false} OfCounts(calls: seq<Call>, tool: string, c: Call)
    ensures multiset(Of(calls, tool))[c] == if c.tool == tool then multiset(calls)[c] else 0
  {
    if calls != [] {
      var init, last := calls[..|calls| - 1], calls[|calls| - 1];
      assert calls == init + [last];
      OfCounts(init, tool, c);
      OfSnoc(init, last, tool);
    }
  }

  // ---------------------------------------------------------------------------------------------
  // Percentiles.

  predicate Ascending(s: seq<nat>) {
    forall i, j :: 0 <= i < j < |s| ==> s[i] <= s[j]
  }

  function Insert(s: seq<nat>, x: nat): seq<nat> {
    if s == [] || s[|s| - 1] <= x then s + [x] else Insert(s[..|s| - 1], x) + [s[|s| - 1]]
  }

  // Go's sort.Ints, by what it promises; see SortSorts.
  function Sort(s: seq<nat>): seq<nat> {
    if s == [] then [] else Insert(Sort(s[..|s| - 1]), s[|s| - 1])
  }

  lemma AscendingSnoc(s: seq<nat>, x: nat)
    requires Ascending(s) && forall y :: y in s ==> y <= x
    ensures Ascending(s + [x])
  {
    forall i | 0 <= i < |s| ensures s[i] <= x {
      assert s[i] in s;
    }
  }

  lemma {:induction false} InsertSorts(s: seq<nat>, x: nat)
    requires Ascending(s)
    ensures Ascending(Insert(s, x)) && multiset(Insert(s, x)) == multiset(s) + multiset{x}
  {
    if s == [] || s[|s| - 1] <= x {
      forall y | y in s ensures y <= x {
      }
      AscendingSnoc(s, x);
    } else {
      var init, last := s[..|s| - 1], s[|s| - 1];
      assert s == init + [last];
      InsertSorts(init, x);
      forall y | y in Insert(init, x) ensures y <= last {
        assert y in multiset(Insert(init, x));
      }
      AscendingSnoc(Insert(init, x), last);
    }
  }

  lemma {:induction false} SortSorts(s: seq<nat>)
    ensures Ascending(Sort(s)) && multiset(Sort(s)) == multiset(s) && |Sort(s)| == |s|
  {
    if s != [] {
      assert s == s[..|s| - 1] + [s[|s| - 1]];
      SortSorts(s[..|s| - 1]);
      InsertSorts(Sort(s[..|s| - 1]), s[|s| - 1]);
      assert |multiset(Sort(s))| == |multiset(s)|;
    }
  }

  function P50(s: seq<nat>): real
    requires s != []
  {
    var n := |s|;
    if n % 2 == 1 then s[(n - 1) / 2] as real else (s[n / 2 - 1] + s[n / 2]) as real / 2.0
  }

  function Clamp(i: int, n: nat): int {
    if i < 0 then 0 else if i >= n then n - 1 else i
  }

  // ceil(0.99 n) - 1, clamped to the valid indices.
  function Rank99(n: nat): (i: nat)
    requires n > 0
    ensures i < n
  {
    Clamp((99 * n + 99) / 100 - 1, n)
  }

  // The clamping is never needed, and the rank is the least that covers 99 values of every 100.
  lemma RankCovers(n: nat)
    requires n > 0
    ensures 100 * Rank99(n) < 99 * n <= 100 * (Rank99(n) + 1)
  {
  }

  lemma InOrder(s: seq<nat>, i: nat, j: nat)
    requires Ascending(s) && i <= j < |s|
    ensures s[i] <= s[j]
  {
  }

  lemma PercentilesInOrder(s: seq<nat>)
    requires s != [] && Ascending(s)
    ensures s[0] as real <= P50(s) <= s[Rank99(|s|)] as real <= s[|s| - 1] as real
  {
    var n := |s|;
    RankCovers(n);
    InOrder(s, Rank99(n), n - 1);
    if n % 2 == 1 {
      InOrder(s, 0, (n - 1) / 2);
      InOrder(s, (n - 1) / 2, Rank99(n));
    } else {
      InOrder(s, 0, n / 2 - 1);
      InOrder(s, n / 2 - 1, n / 2);
      InOrder(s, n / 2, Rank99(n));
    }
  }

  // The median: the mean of the lower and the upper middle value, which are one if the number of values is odd.
  lemma P50IsMiddle(s: seq<nat>)
    requires s != [] && Ascending(s)
    ensures var low, high := (|s| - 1) / 2, |s| / 2;
      && P50(s) * 2.0 == s[low] as real + s[high] as real
      && (forall i :: 0 <= i <= low ==> s[i] as real <= P50(s))
      && (forall i :: high <= i < |s| ==> P50(s) <= s[i] as real)
      && low + 1 == |s| - high
  {
    var low, high := (|s| - 1) / 2, |s| / 2;
    if |s| % 2 == 1 {
      assert low == high;
    } else {
      assert low == |s| / 2 - 1;
    }
    InOrder(s, low, high);
    forall i | 0 <= i <= low ensures s[i] as real <= P50(s) {
      InOrder(s, i, low);
    }
    forall i | high <= i < |s| ensures P50(s) <= s[i] as real {
      InOrder(s, high, i);
    }
  }

  // ---------------------------------------------------------------------------------------------

  method SortInts(s: seq<nat>) returns (out: seq<nat>)
    ensures out == Sort(s)
  {
    out := [];
    for i := 0 to |s|
      invariant out == Sort(s[..i])
    {
      assert s[..i + 1][..i] == s[..i];
      out := Insert(out, s[i]);
    }
    assert s[..|s|] == s;
  }

  method ParseBenchCapture(patterns: Patterns, lines: seq<string>) returns (out: Output)
    ensures var calls := Calls(patterns, Collapse("", lines));
      && out.total == StatsOf(calls) && out.perTool == PerTool(calls)
      && (calls == [] ==> out.p50.None? && out.p99.None?)
      && (calls != [] ==> var s := Sort(Durations(calls));
           |s| == |calls| && out.p50 == Some(P50(s)) && out.p99 == Some(s[Rank99(|s|)]))
  {
    var total, perTool, allMs := Scan(patterns, lines);
    ghost var calls := Calls(patterns, Collapse("", lines));
    CountIsLength(calls);
    if total.count == 0 {
      return Output(total, None, None, perTool);
    }
    var sorted := SortInts(allMs);
    SortSorts(allMs);
    var p50, p99 := Percentiles(sorted);
    out := Output(total, Some(p50), Some(p99), perTool);
  }

  method Percentiles(sorted: seq<nat>) returns (p50: real, p99: nat)
    requires sorted != []
    ensures p50 == P50(sorted) && p99 == sorted[Rank99(|sorted|)]
  {
    var n := |sorted|;
    if n % 2 == 1 {
      p50 := sorted[(n - 1) / 2] as real;
    } else {
      p50 := (sorted[n / 2 - 1] + sorted[n / 2]) as real / 2.0;
    }
    p99 := sorted[Rank99(n)];
  }

  lemma {:induction false} CountIsLength(calls: seq<Call>)
    ensures Total(One, calls) == |calls|
  {
    if calls != [] {
      CountIsLength(calls[..|calls| - 1]);
    }
  }

  method Scan(patterns: Patterns, lines: seq<string>)
    returns (total: Stats, perTool: map<string, Stats>, allMs: seq<nat>)
    ensures var calls := Calls(patterns, Collapse("", lines));
      total == StatsOf(calls) && perTool == PerTool(calls) && allMs == Durations(calls)
  {
    total, perTool, allMs := Stats(0, 0, 0, 0), map[], [];
    var prevLine := "";
    ghost var kept: seq<string> := [];
    for i := 0 to |lines|
      invariant kept == Collapse("", lines[..i]) && prevLine == Remembered("", lines[..i])
      invariant Books(Calls(patterns, kept), total, perTool, allMs)
    {
      var line := lines[i];
      assert lines[..i + 1] == lines[..i] + [line];
      CollapseSnoc("", lines[..i], line);
      if line == prevLine {
        prevLine := "";
        continue;
      }
      prevLine := line;
      ghost var before := kept;
      kept := kept + [line];
      FoundSnoc(patterns, before, line);
      var found := patterns(line);
      match found
      case None =>
      case Some(c) =>
        total, perTool, allMs := Count(c, total, perTool, allMs, Calls(patterns, before));
    }
    assert lines[..|lines|] == lines;
  }

  ghost predicate Books(calls: seq<Call>, total: Stats, perTool: map<string, Stats>, allMs: seq<nat>) {
    total == StatsOf(calls) && perTool == PerTool(calls) && allMs == Durations(calls)
  }

  method Count(c: Call, total0: Stats, perTool0: map<string, Stats>, allMs0: seq<nat>, ghost calls: seq<Call>)
    returns (total: Stats, perTool: map<string, Stats>, allMs: seq<nat>)
    requires Books(calls, total0, perTool0, allMs0)
    ensures Books(calls + [c], total, perTool, allMs)
  {
    ToolsSnoc(calls, c);
    StatsSnoc(calls, c);
    StatsSnoc(Of(calls, c.tool), c);
    if c.tool !in perTool0 {
      NoneOf(calls, c.tool);
    }
    var mine := if c.tool in perTool0 then perTool0[c.tool] else Stats(0, 0, 0, 0);
    mine := AddCall(mine, c);
    ByToolSnoc(StatsOf, calls, c);
    total := AddCall(total0, c);
    perTool, allMs := perTool0[c.tool := mine], allMs0 + [c.ms];
  }

  method AddCall(s0: Stats, c: Call) returns (s: Stats)
    ensures s == Plus(s0, c)
  {
    s := s0.(count := s0.count + 1, sumMs := s0.sumMs + c.ms);
    if c.payload.Payload? {
      s := s.(sumBytes := s.sumBytes + c.payload.bytes, sumTokens := s.sumTokens + c.payload.tokens);
    }
  }
}
