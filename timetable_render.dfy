/** The day layout of the visual timetable
    (src/components/timetable/timetable_render.rs): the rows of the time
    axis, the synthetic breaks that fill the gaps of a day, and the
    clustering of a day's blocks into groups of transitively overlapping
    blocks. */
module TimetableRender {
  import opened CleanModels
  import opened Sorting

  // ----------------------------------------------------------------------
  // Orders used by the sorts of this file

  predicate StartLe(a: LessonBlock, b: LessonBlock) {
    Start(a) <= Start(b)
  }

  /** `group.sort_by`: longer blocks first, then earlier starts. */
  predicate LongerFirst(a: LessonBlock, b: LessonBlock) {
    Duration(a) > Duration(b) || (Duration(a) == Duration(b) && Start(a) <= Start(b))
  }

  /** Sort key of a group: the start of its first member. */
  function GroupStart(g: seq<LessonBlock>): int {
    if g == [] then 0 else Start(g[0])
  }

  predicate EarlierGroup(g: seq<LessonBlock>, h: seq<LessonBlock>) {
    GroupStart(g) <= GroupStart(h)
  }

  predicate DateLe(a: DayTimeTable, b: DayTimeTable) {
    a.date <= b.date
  }

  predicate IntLe(a: int, b: int) {
    a <= b
  }

  lemma OrdersArePreorders()
    ensures TotalPreorder(StartLe) && TotalPreorder(LongerFirst)
    ensures TotalPreorder(EarlierGroup) && TotalPreorder(DateLe) && TotalPreorder(IntLe)
  {
  }

  // ----------------------------------------------------------------------
  // fill_breaks

  /** The break that opens the day when the first block does not start at
      `earliest`: from `earliest` on the first block's date to its start. */
  function LeadingBreak(sorted: seq<LessonBlock>, earliest: MinuteOfDay): (r: seq<LessonBlock>)
    ensures |sorted| > 0 && sorted[0].timeRange.start.time != earliest ==>
              r == [BreakBlock(TimeRange(DateTime(sorted[0].timeRange.start.date, earliest), sorted[0].timeRange.start))]
    ensures !(|sorted| > 0 && sorted[0].timeRange.start.time != earliest) ==> r == []
  {
    if |sorted| > 0 && sorted[0].timeRange.start.time != earliest then
      [BreakBlock(TimeRange(DateTime(sorted[0].timeRange.start.date, earliest), sorted[0].timeRange.start))]
    else []
  }

  /** The break emitted after block `k`: present when block `k` ends strictly
      before block `k + 1` starts, and spanning exactly that gap. */
  function GapAfter(s: seq<LessonBlock>, k: nat): (r: seq<LessonBlock>)
    requires k < |s|
    ensures |r| <= 1
    ensures |r| == 1 <==> k + 1 < |s| && End(s[k]) < Start(s[k + 1])
    ensures |r| == 1 ==> r[0] == BreakBlock(TimeRange(s[k].timeRange.end, s[k + 1].timeRange.start))
  {
    if k + 1 < |s| && End(s[k]) < Start(s[k + 1]) then
      [BreakBlock(TimeRange(s[k].timeRange.end, s[k + 1].timeRange.start))]
    else []
  }

  /** What the walk over the sorted blocks has emitted after its first `i` steps. */
  function Walk(s: seq<LessonBlock>, i: nat): seq<LessonBlock>
    requires i <= |s|
  {
    if i == 0 then [] else Walk(s, i - 1) + ([s[i - 1]] + GapAfter(s, i - 1))
  }

  /** The day as `fill_breaks` returns it, for blocks already sorted by start. */
  function FilledDay(sorted: seq<LessonBlock>, earliest: MinuteOfDay): seq<LessonBlock> {
    LeadingBreak(sorted, earliest) + Walk(sorted, |sorted|)
  }

  /** `fill_breaks`: sorts the day by start, opens it with a break from
      `earliest` when needed and inserts a break into every gap between
      consecutive blocks. */
  method FillBreaks(lessons: seq<LessonBlock>, earliest: MinuteOfDay) returns (result: seq<LessonBlock>)
    ensures result == FilledDay(SortBy(lessons, StartLe), earliest)
  {
    var sorted := SortBy(lessons, StartLe);
    result := [];
    if |sorted| > 0 && sorted[0].timeRange.start.time != earliest {
      result := result + [BreakBlock(TimeRange(DateTime(sorted[0].timeRange.start.date, earliest), sorted[0].timeRange.start))];
    }
    ghost var lead := result;
    assert lead == LeadingBreak(sorted, earliest);
    var i := 0;
    while i < |sorted|
      invariant 0 <= i <= |sorted|
      invariant result == lead + Walk(sorted, i)
    {
      var pushed := PushWithGap(sorted, i);
      WalkStep(sorted, i);
      AppendAssoc(lead, Walk(sorted, i), pushed);
      result := result + pushed;
      i := i + 1;
    }
  }

  /** One round of the loop: block `i`, then the break up to the next
      block when there is a gap. */
  method PushWithGap(sorted: seq<LessonBlock>, i: nat) returns (pushed: seq<LessonBlock>)
    requires i < |sorted|
    ensures pushed == [sorted[i]] + GapAfter(sorted, i)
  {
    var curr := sorted[i];
    var end := curr.timeRange.end;
    pushed := [curr];
    if i + 1 < |sorted| && Instant(end) < Instant(sorted[i + 1].timeRange.start) {
      pushed := pushed + [BreakBlock(TimeRange(end, sorted[i + 1].timeRange.start))];
    } else {
      AppendEmpty(pushed);
    }
  }

  lemma WalkStep(s: seq<LessonBlock>, i: nat)
    requires i < |s|
    ensures Walk(s, i + 1) == Walk(s, i) + ([s[i]] + GapAfter(s, i))
  {
  }

  /** Position of block `k` in the walk's output. */
  function Position(s: seq<LessonBlock>, k: nat): nat
    requires k <= |s|
  {
    |Walk(s, k)|
  }

  lemma {:induction false} WalkPrefix(s: seq<LessonBlock>, i: nat, j: nat)
    requires i <= j <= |s|
    ensures |Walk(s, i)| <= |Walk(s, j)| && Walk(s, j)[..|Walk(s, i)|] == Walk(s, i)
    decreases j - i
  {
    if i < j {
      WalkPrefix(s, i, j - 1);
      assert Walk(s, j) == Walk(s, j - 1) + ([s[j - 1]] + GapAfter(s, j - 1));
    }
  }

  /** Every block of the day appears exactly where the walk put it, in start
      order; between block `k` and block `k + 1` there is nothing, or the one
      break that covers their gap; nothing follows the last block. */
  lemma WalkLayout(s: seq<LessonBlock>, k: nat)
    requires k < |s|
    ensures Position(s, k) < |Walk(s, |s|)| && Walk(s, |s|)[Position(s, k)] == s[k]
    ensures Position(s, k + 1) == Position(s, k) + 1 + |GapAfter(s, k)| <= |Walk(s, |s|)|
    ensures |GapAfter(s, k)| == 1 ==>
              Walk(s, |s|)[Position(s, k) + 1] == BreakBlock(TimeRange(s[k].timeRange.end, s[k + 1].timeRange.start))
    ensures Position(s, |s|) == Position(s, |s| - 1) + 1
  {
    WalkPrefix(s, k + 1, |s|);
    var w := Walk(s, k + 1);
    assert w == Walk(s, k) + ([s[k]] + GapAfter(s, k));
    assert w[|Walk(s, k)|] == s[k];
    assert Walk(s, |s|)[..|w|] == w;
  }

  /** Every block of the filled day that is not one of the input blocks is a
      synthetic break, and the first block is never preceded by a break of the
      walk; so the blocks kept at `Position` are the input in start order and
      only breaks were added. */
  lemma {:induction false} WalkOnlyAddsBreaks(s: seq<LessonBlock>, i: nat, j: nat)
    requires i <= |s| && j < |Walk(s, i)|
    ensures (exists k :: 0 <= k < i && j == Position(s, k)) || IsBreak(Walk(s, i)[j])
  {
    if i > 0 {
      var prev := Walk(s, i - 1);
      assert Walk(s, i) == prev + ([s[i - 1]] + GapAfter(s, i - 1));
      if j < |prev| {
        WalkOnlyAddsBreaks(s, i - 1, j);
        assert Walk(s, i)[j] == prev[j];
      } else if j == |prev| {
        assert j == Position(s, i - 1);
      } else {
        assert Walk(s, i)[j] == GapAfter(s, i - 1)[0];
      }
    }
  }

  /** No gaps: each block of the walk starts no later than the block before
      it ends, so the filled day covers the span from its first start to its
      last block without holes. */
  lemma {:induction false} WalkHasNoGaps(s: seq<LessonBlock>, i: nat)
    requires i <= |s|
    ensures forall j :: 0 <= j < |Walk(s, i)| - 1 ==> Start(Walk(s, i)[j + 1]) <= End(Walk(s, i)[j])
    ensures i > 0 ==> |Walk(s, i)| > 0
    ensures 0 < i < |s| ==> Start(s[i]) <= End(Walk(s, i)[|Walk(s, i)| - 1])
  {
    if i > 0 {
      WalkHasNoGaps(s, i - 1);
      var prev := Walk(s, i - 1);
      var w := Walk(s, i);
      assert w == prev + ([s[i - 1]] + GapAfter(s, i - 1));
      forall j | 0 <= j < |w| - 1
        ensures Start(w[j + 1]) <= End(w[j])
      {
        if j + 1 < |prev| {
          assert w[j] == prev[j] && w[j + 1] == prev[j + 1];
        } else if j + 1 == |prev| {
          assert w[j] == prev[|prev| - 1] && w[j + 1] == s[i - 1];
        } else {
          assert j == |prev| && w[j] == s[i - 1];
        }
      }
    }
  }

  /** The whole filled day has no gaps either: a leading break ends where the
      first block starts. */
  lemma FilledDayHasNoGaps(s: seq<LessonBlock>, earliest: MinuteOfDay)
    ensures var r := FilledDay(s, earliest);
            forall j :: 0 <= j < |r| - 1 ==> Start(r[j + 1]) <= End(r[j])
  {
    WalkHasNoGaps(s, |s|);
    var lead := LeadingBreak(s, earliest);
    var w := Walk(s, |s|);
    var r := FilledDay(s, earliest);
    if |s| > 0 {
      WalkLayout(s, 0);
      assert w[0] == s[0];
    }
    forall j | 0 <= j < |r| - 1
      ensures Start(r[j + 1]) <= End(r[j])
    {
      if |lead| == 1 && j == 0 {
        assert r[0] == lead[0] && r[1] == w[0];
      } else {
        assert r[j] == w[j - |lead|] && r[j + 1] == w[j - |lead| + 1];
      }
    }
  }

  /** An empty day stays empty. */
  lemma FilledDayOfNothing(earliest: MinuteOfDay)
    ensures FilledDay([], earliest) == []
  {
  }

  // ----------------------------------------------------------------------
  // group_by_time

  /** No block of `g` overlaps a block of `h`. */
  predicate Apart(g: seq<LessonBlock>, h: seq<LessonBlock>) {
    forall a, b :: a in g && b in h ==> !Overlaps(a, b)
  }

  /** Every member after the first overlaps an earlier member: the order in
      which the worklist absorbs a group. */
  ghost predicate Chained(g: seq<LessonBlock>) {
    forall i :: 0 < i < |g| ==> OverlapsEarlier(g, i)
  }

  /** Member `i` overlaps some member before it. */
  ghost predicate OverlapsEarlier(g: seq<LessonBlock>, i: int)
    requires 0 <= i < |g|
  {
    exists j :: 0 <= j < i && Overlaps(g[j], g[i])
  }

  /** Some order of the group's members is chained, so the overlap relation
      connects the whole group. */
  ghost predicate OverlapConnected(g: seq<LessonBlock>) {
    exists c :: Chained(c) && multiset(c) == multiset(g)
  }

  lemma ApartSymmetric()
    ensures forall g, h :: Apart(g, h) == Apart(h, g)
  {
    forall g, h ensures Apart(g, h) == Apart(h, g) {
      if Apart(g, h) {
        forall a, b | a in h && b in g ensures !Overlaps(a, b) { OverlapsSymmetric(a, b); }
      }
      if Apart(h, g) {
        forall a, b | a in g && b in h ensures !Overlaps(a, b) { OverlapsSymmetric(a, b); }
      }
    }
  }

  /** `group_by_time`: partitions the day into clusters of transitively
      overlapping blocks, sorts each cluster longest first, then sorts the
      clusters by the start of their first member. */
  method GroupByTime(lessons: seq<LessonBlock>) returns (res: seq<seq<LessonBlock>>)
    ensures multiset(Flatten(res)) == multiset(lessons)
    ensures forall g :: g in res ==> Cluster(g)
    ensures forall p, q :: 0 <= p < q < |res| ==> Apart(res[p], res[q])
    ensures SortedBy(res, EarlierGroup)
    ensures res == [] <==> lessons == []
  {
    var remaining := SortBy(lessons, StartLe);
    res := [];
    while remaining != []
      invariant PartitionSoFar(res, remaining, lessons)
      decreases |remaining|
    {
      ghost var before := remaining;
      var group;
      group, remaining := GrowCluster(remaining[0], remaining[1..]);
      var sortedGroup := SortBy(group, LongerFirst);
      ClusterIsApart(group, remaining, sortedGroup);
      ClusterStep(res, before, group, sortedGroup, remaining, lessons);
      res := res + [sortedGroup];
    }
    var unsorted := res;
    res := SortBy(unsorted, EarlierGroup);
    SortingKeepsPartition(unsorted, lessons);
  }

  /** A finished cluster: non-empty, connected by overlaps, longest first. */
  ghost predicate Cluster(g: seq<LessonBlock>) {
    g != [] && OverlapConnected(g) && SortedBy(g, LongerFirst)
  }

  /** The invariant of the outer loop: the clusters so far and the blocks
      still waiting hold every block of the day, and no two of them overlap
      across cluster boundaries. */
  ghost predicate PartitionSoFar(res: seq<seq<LessonBlock>>, remaining: seq<LessonBlock>, lessons: seq<LessonBlock>) {
    && multiset(Flatten(res)) + multiset(remaining) == multiset(lessons)
    && (forall g :: g in res ==> Cluster(g))
    && (forall p, q :: 0 <= p < q < |res| ==> Apart(res[p], res[q]))
    && (forall p :: 0 <= p < |res| ==> Apart(res[p], remaining))
  }

  /** The final `sort_by_key` keeps every property of the partition and
      orders the clusters. */
  lemma SortingKeepsPartition(unsorted: seq<seq<LessonBlock>>, lessons: seq<LessonBlock>)
    requires PartitionSoFar(unsorted, [], lessons)
    ensures var res := SortBy(unsorted, EarlierGroup);
            && multiset(Flatten(res)) == multiset(lessons)
            && (forall g :: g in res ==> Cluster(g))
            && (forall p, q :: 0 <= p < q < |res| ==> Apart(res[p], res[q]))
            && SortedBy(res, EarlierGroup)
            && (res == [] <==> lessons == [])
  {
    var res := SortBy(unsorted, EarlierGroup);
    NonEmptyParts(unsorted);
    assert |Flatten(unsorted)| == |multiset(lessons)| == |lessons|;
    OrdersArePreorders();
    SortBySorted(unsorted, EarlierGroup);
    FlattenPermuted(unsorted, res);
    ApartSymmetric();
    PairwisePermuted(unsorted, res, Apart);
    forall g | g in res ensures g in unsorted {
      assert g in multiset(res);
    }
  }

  /** The inner worklist of `group_by_time`: starting from `first`, absorbs
      every block of `rest` that overlaps a member, rescanning from the
      front after each absorption, until no block left overlaps the group. */
  method GrowCluster(first: LessonBlock, rest: seq<LessonBlock>) returns (group: seq<LessonBlock>, remaining: seq<LessonBlock>)
    ensures group != [] && group[0] == first && Chained(group)
    ensures multiset(group) + multiset(remaining) == multiset{first} + multiset(rest)
    ensures forall k :: 0 <= k < |remaining| ==> Apart([remaining[k]], group)
  {
    group := [first];
    remaining := rest;
    var i := 0;
    while i < |remaining|
      invariant 0 <= i <= |remaining|
      invariant group != [] && group[0] == first && Chained(group)
      invariant multiset(group) + multiset(remaining) == multiset{first} + multiset(rest)
      invariant forall k :: 0 <= k < i ==> Apart([remaining[k]], group)
      decreases |remaining|, |remaining| - i
    {
      var overlapsAny := OverlapsAnyMember(remaining[i], group);
      if overlapsAny {
        var j :| 0 <= j < |group| && Overlaps(remaining[i], group[j]);
        AbsorbKeepsChain(group, remaining[i], j);
        RemoveAt(remaining, i);
        group := group + [remaining[i]];
        remaining := remaining[..i] + remaining[i + 1..];
        i := 0;
      } else {
        i := i + 1;
      }
    }
  }

  /** The `for member in &group` scan with its early `break`. */
  method OverlapsAnyMember(x: LessonBlock, group: seq<LessonBlock>) returns (found: bool)
    ensures found <==> exists m :: 0 <= m < |group| && Overlaps(x, group[m])
    ensures !found ==> Apart([x], group)
  {
    found := false;
    var j := 0;
    while j < |group|
      invariant 0 <= j <= |group|
      invariant forall m :: 0 <= m < j ==> !Overlaps(x, group[m])
    {
      if Overlaps(x, group[j]) {
        found := true;
        break;
      }
      j := j + 1;
    }
    if !found {
      forall a, b | a in [x] && b in group ensures !Overlaps(a, b) {
        var m :| 0 <= m < |group| && group[m] == b;
      }
    }
  }

  /** Blocks apart from a collection are apart from any part of it. */
  lemma ApartFromPart(h: seq<LessonBlock>, big: seq<LessonBlock>, small: seq<LessonBlock>)
    requires Apart(h, big) && multiset(small) <= multiset(big)
    ensures Apart(h, small)
  {
    forall a, b | a in h && b in small ensures !Overlaps(a, b) {
      assert b in multiset(big);
    }
  }

  /** One round of the outer loop keeps the partition invariants. */
  lemma ClusterStep(res: seq<seq<LessonBlock>>, before: seq<LessonBlock>, group: seq<LessonBlock>,
                    sortedGroup: seq<LessonBlock>, remaining: seq<LessonBlock>, lessons: seq<LessonBlock>)
    requires PartitionSoFar(res, before, lessons) && before != []
    requires multiset(group) + multiset(remaining) == multiset{before[0]} + multiset(before[1..])
    requires Cluster(sortedGroup) && multiset(sortedGroup) == multiset(group)
    requires Apart(sortedGroup, remaining)
    ensures PartitionSoFar(res + [sortedGroup], remaining, lessons)
  {
    assert before == [before[0]] + before[1..];
    assert multiset(sortedGroup) + multiset(remaining) == multiset(before);
    AppendCluster(res, sortedGroup);
    StepKeepsApart(res, before, sortedGroup, remaining);
    var res' := res + [sortedGroup];
    assert multiset(Flatten(res')) + multiset(remaining) == multiset(lessons);
  }

  lemma AppendCluster(res: seq<seq<LessonBlock>>, g: seq<LessonBlock>)
    requires (forall h :: h in res ==> Cluster(h)) && Cluster(g)
    ensures forall h :: h in res + [g] ==> Cluster(h)
    ensures multiset(Flatten(res + [g])) == multiset(Flatten(res)) + multiset(g)
  {
    var single: seq<seq<LessonBlock>> := [g];
    assert single[..0] == [];
    assert Flatten(single) == g;
    FlattenAppend(res, single);
  }

  lemma StepKeepsApart(res: seq<seq<LessonBlock>>, before: seq<LessonBlock>, g: seq<LessonBlock>, remaining: seq<LessonBlock>)
    requires forall p, q :: 0 <= p < q < |res| ==> Apart(res[p], res[q])
    requires forall p :: 0 <= p < |res| ==> Apart(res[p], before)
    requires multiset(g) + multiset(remaining) == multiset(before)
    requires Apart(g, remaining)
    ensures forall p, q :: 0 <= p < q < |res + [g]| ==> Apart((res + [g])[p], (res + [g])[q])
    ensures forall p :: 0 <= p < |res + [g]| ==> Apart((res + [g])[p], remaining)
  {
    forall p | 0 <= p < |res| ensures Apart(res[p], g) && Apart(res[p], remaining) {
      ApartFromPart(res[p], before, g);
      ApartFromPart(res[p], before, remaining);
    }
  }

  /** A list of non-empty parts is empty exactly when its concatenation is. */
  lemma NonEmptyParts(res: seq<seq<LessonBlock>>)
    requires forall g :: g in res ==> Cluster(g)
    ensures res == [] <==> Flatten(res) == []
  {
    if res != [] {
      assert res[|res| - 1] in res;
      assert Flatten(res) == Flatten(res[..|res| - 1]) + res[|res| - 1];
    }
  }

  lemma AbsorbKeepsChain(group: seq<LessonBlock>, x: LessonBlock, j: int)
    requires Chained(group) && 0 <= j < |group| && Overlaps(x, group[j])
    ensures Chained(group + [x])
  {
    var g := group + [x];
    forall i | 0 < i < |g| ensures OverlapsEarlier(g, i) {
      if i < |group| {
        assert OverlapsEarlier(group, i);
        var m :| 0 <= m < i && Overlaps(group[m], group[i]);
        assert g[m] == group[m] && g[i] == group[i];
      } else {
        OverlapsSymmetric(x, group[j]);
        assert g[j] == group[j] && g[i] == x;
        assert Overlaps(g[j], g[i]);
      }
    }
  }

  lemma RemoveAt(s: seq<LessonBlock>, i: int)
    requires 0 <= i < |s|
    ensures multiset(s) == multiset(s[..i] + s[i + 1..]) + multiset{s[i]}
    ensures forall x :: x in s[..i] + s[i + 1..] ==> x in s
  {
    assert s == s[..i] + [s[i]] + s[i + 1..];
  }

  /** A finished cluster, once sorted, is a `Cluster` and is apart from
      everything still waiting. */
  lemma ClusterIsApart(group: seq<LessonBlock>, remaining: seq<LessonBlock>, sortedGroup: seq<LessonBlock>)
    requires group != [] && Chained(group)
    requires forall k :: 0 <= k < |remaining| ==> Apart([remaining[k]], group)
    requires sortedGroup == SortBy(group, LongerFirst)
    ensures Cluster(sortedGroup) && multiset(sortedGroup) == multiset(group)
    ensures Apart(sortedGroup, remaining)
  {
    OrdersArePreorders();
    SortBySorted(group, LongerFirst);
    assert |sortedGroup| == |group|;
    assert Chained(group) && multiset(group) == multiset(sortedGroup);
    forall a, b | a in sortedGroup && b in remaining ensures !Overlaps(a, b) {
      assert a in multiset(group);
      var k :| 0 <= k < |remaining| && remaining[k] == b;
      assert b in [remaining[k]];
      OverlapsSymmetric(a, b);
    }
  }

  // ----------------------------------------------------------------------
  // The rows of the time axis

  function StartTimes(ls: seq<LessonBlock>): (r: seq<int>)
    ensures |r| == |ls| && forall i :: 0 <= i < |ls| ==> r[i] == ls[i].timeRange.start.time
  {
    seq(|ls|, i requires 0 <= i < |ls| => ls[i].timeRange.start.time as int)
  }

  function EndTimes(ls: seq<LessonBlock>): (r: seq<int>)
    ensures |r| == |ls| && forall i :: 0 <= i < |ls| ==> r[i] == ls[i].timeRange.end.time
  {
    seq(|ls|, i requires 0 <= i < |ls| => ls[i].timeRange.end.time as int)
  }

  /** `v.sort(); v.dedup()`. */
  function SortedDistinct(s: seq<int>): (r: seq<int>)
    ensures StrictlyIncreasing(r)
    ensures forall x :: x in r <==> x in s
  {
    OrdersArePreorders();
    SortBySorted(s, IntLe);
    var sorted := SortBy(s, IntLe);
    assert forall x :: x in sorted <==> x in multiset(s);
    DedupSorted(sorted);
    Dedup(sorted)
  }

  /** `Vec::dedup`: drops consecutive repeats. */
  function Dedup(s: seq<int>): seq<int> {
    if |s| <= 1 then s
    else if s[0] == s[1] then Dedup(s[1..])
    else [s[0]] + Dedup(s[1..])
  }

  lemma {:induction false} DedupSorted(s: seq<int>)
    requires SortedBy(s, IntLe)
    ensures StrictlyIncreasing(Dedup(s))
    ensures forall x :: x in Dedup(s) <==> x in s
    ensures |s| > 0 ==> |Dedup(s)| > 0 && Dedup(s)[0] == s[0]
  {
    if |s| > 1 {
      DedupSorted(s[1..]);
      assert forall x :: x in s <==> x == s[0] || x in s[1..];
    }
  }

  /** Index of the first end time after `s`, or `|ends|` when there is none. */
  function FirstAbove(ends: seq<int>, s: int): (i: nat)
    ensures i <= |ends|
    ensures i < |ends| ==> ends[i] > s
    ensures forall k :: 0 <= k < i ==> ends[k] <= s
  {
    if ends == [] then 0 else if ends[0] > s then 0 else 1 + FirstAbove(ends[1..], s)
  }

  /** The row that start time `k` opens, if any: up to the first end after it,
      unless that end lies beyond the next start. */
  function RowAt(starts: seq<int>, ends: seq<int>, k: nat): seq<(int, int)>
    requires k < |starts|
  {
    var i := FirstAbove(ends, starts[k]);
    if i == |ends| then []
    else if k + 1 < |starts| && ends[i] > starts[k + 1] then []
    else [(starts[k], ends[i])]
  }

  /** The rows opened by the first `n` start times. */
  function Rows(starts: seq<int>, ends: seq<int>, n: nat): seq<(int, int)>
    requires n <= |starts|
  {
    if n == 0 then [] else Rows(starts, ends, n - 1) + RowAt(starts, ends, n - 1)
  }

  lemma RowsStep(starts: seq<int>, ends: seq<int>, k: nat)
    requires k < |starts|
    ensures Rows(starts, ends, k + 1) == Rows(starts, ends, k) + RowAt(starts, ends, k)
  {
  }

  /** The axis of a week: nothing when it has no lessons, otherwise the
      earliest start, the latest end and the rows. */
  datatype TimeAxis = NoLessons | Axis(minTime: int, maxTime: int, rows: seq<(int, int)>)

  /** The time-axis part of `time_table_render`: sorted, deduplicated start
      and end times of every lesson of the week, and the rows formed by
      walking the end times with a cursor. */
  method TimeAxisOf(week: WeekTimeTable) returns (axis: TimeAxis)
    ensures axis.NoLessons? <==> AllLessons(week.days) == []
    ensures axis.Axis? ==>
              var ls := AllLessons(SortBy(week.days, DateLe));
              && axis.rows == Rows(SortedDistinct(StartTimes(ls)), SortedDistinct(EndTimes(ls)), |SortedDistinct(StartTimes(ls))|)
              && (forall l :: l in AllLessons(week.days) ==> axis.minTime <= l.timeRange.start.time)
              && (exists l :: l in AllLessons(week.days) && axis.minTime == l.timeRange.start.time)
              && (forall l :: l in AllLessons(week.days) ==> l.timeRange.end.time <= axis.maxTime)
              && (exists l :: l in AllLessons(week.days) && axis.maxTime == l.timeRange.end.time)
  {
    var days := SortBy(week.days, DateLe);
    var lessons := AllLessons(days);
    AllLessonsPermuted(week.days, days);
    if lessons == [] {
      return NoLessons;
    }
    var startTimes := SortedDistinct(StartTimes(lessons));
    var endTimes := SortedDistinct(EndTimes(lessons));
    assert StartTimes(lessons)[0] in startTimes && EndTimes(lessons)[0] in endTimes;
    var minTime := startTimes[0];
    var maxTime := endTimes[|endTimes| - 1];
    var rows := RowsOf(startTimes, endTimes);
    ExtremesOfTimes(lessons, week.days, startTimes, endTimes);
    axis := Axis(minTime, maxTime, rows);
  }

  lemma AllLessonsPermuted(a: seq<DayTimeTable>, b: seq<DayTimeTable>)
    requires multiset(a) == multiset(b)
    ensures multiset(AllLessons(a)) == multiset(AllLessons(b))
  {
    MapPermuted(a, b, DayLessons);
    FlattenPermuted(Map(a, DayLessons), Map(b, DayLessons));
  }

  lemma ExtremesOfTimes(lessons: seq<LessonBlock>, days: seq<DayTimeTable>, startTimes: seq<int>, endTimes: seq<int>)
    requires multiset(lessons) == multiset(AllLessons(days))
    requires startTimes == SortedDistinct(StartTimes(lessons)) && endTimes == SortedDistinct(EndTimes(lessons))
    requires |startTimes| > 0 && |endTimes| > 0
    ensures forall l :: l in AllLessons(days) ==> startTimes[0] <= l.timeRange.start.time
    ensures exists l :: l in AllLessons(days) && startTimes[0] == l.timeRange.start.time
    ensures forall l :: l in AllLessons(days) ==> l.timeRange.end.time <= endTimes[|endTimes| - 1]
    ensures exists l :: l in AllLessons(days) && endTimes[|endTimes| - 1] == l.timeRange.end.time
  {
    forall l ensures l in AllLessons(days) <==> l in lessons {
      assert l in multiset(lessons) <==> l in multiset(AllLessons(days));
    }
    LowestStart(lessons, startTimes);
    HighestEnd(lessons, endTimes);
  }

  /** The first sorted start time is the earliest start of a lesson. */
  lemma LowestStart(lessons: seq<LessonBlock>, startTimes: seq<int>)
    requires startTimes == SortedDistinct(StartTimes(lessons)) && |startTimes| > 0
    ensures forall l :: l in lessons ==> startTimes[0] <= l.timeRange.start.time
    ensures exists l :: l in lessons && startTimes[0] == l.timeRange.start.time
  {
    forall l | l in lessons
      ensures startTimes[0] <= l.timeRange.start.time
    {
      var i :| 0 <= i < |lessons| && lessons[i] == l;
      FirstIsLeast(startTimes, StartTimes(lessons)[i]);
    }
    assert startTimes[0] in StartTimes(lessons);
    var i :| 0 <= i < |lessons| && StartTimes(lessons)[i] == startTimes[0];
    assert lessons[i] in lessons;
  }

  /** The last sorted end time is the latest end of a lesson. */
  lemma HighestEnd(lessons: seq<LessonBlock>, endTimes: seq<int>)
    requires endTimes == SortedDistinct(EndTimes(lessons)) && |endTimes| > 0
    ensures forall l :: l in lessons ==> l.timeRange.end.time <= endTimes[|endTimes| - 1]
    ensures exists l :: l in lessons && endTimes[|endTimes| - 1] == l.timeRange.end.time
  {
    forall l | l in lessons
      ensures l.timeRange.end.time <= endTimes[|endTimes| - 1]
    {
      var i :| 0 <= i < |lessons| && lessons[i] == l;
      LastIsGreatest(endTimes, EndTimes(lessons)[i]);
    }
    var e := endTimes[|endTimes| - 1];
    assert e in EndTimes(lessons);
    var j :| 0 <= j < |lessons| && EndTimes(lessons)[j] == e;
    assert lessons[j] in lessons;
  }

  /** The `while let` loop over the start times. `ei` only moves forward:
      end times at or before the current start are never needed again. */
  method RowsOf(startTimes: seq<int>, endTimes: seq<int>) returns (rows: seq<(int, int)>)
    requires StrictlyIncreasing(startTimes) && StrictlyIncreasing(endTimes)
    ensures rows == Rows(startTimes, endTimes, |startTimes|)
  {
    rows := [];
    var ei := 0;
    var k := 0;
    while k < |startTimes|
      invariant 0 <= k <= |startTimes|
      invariant 0 <= ei <= |endTimes|
      invariant k > 0 ==> ei == FirstAbove(endTimes, startTimes[k - 1])
      invariant k == 0 ==> ei == 0
      invariant rows == Rows(startTimes, endTimes, k)
    {
      var s := startTimes[k];
      CursorStillBelow(startTimes, endTimes, k, ei);
      ei := AdvanceCursor(endTimes, s, ei);
      if ei >= |endTimes| {
        // The source's `break`: nothing follows the loop here.
        NoRowsAfter(startTimes, endTimes, k);
        return;
      }
      RowsStep(startTimes, endTimes, k);
      if k + 1 < |startTimes| && endTimes[ei] > startTimes[k + 1] {
        assert RowAt(startTimes, endTimes, k) == [];
        assert rows + [] == rows;
        k := k + 1;
        continue;
      }
      assert RowAt(startTimes, endTimes, k) == [(s, endTimes[ei])];
      rows := rows + [(s, endTimes[ei])];
      k := k + 1;
    }
  }

  /** `while ei < end_times.len() && s >= end_times[ei] { ei += 1; }`: moves
      the cursor to the first end time after `s`. */
  method AdvanceCursor(endTimes: seq<int>, s: int, from: int) returns (ei: int)
    requires StrictlyIncreasing(endTimes) && 0 <= from <= |endTimes|
    requires from == 0 || endTimes[from - 1] <= s
    ensures ei == FirstAbove(endTimes, s)
  {
    ei := from;
    while ei < |endTimes| && s >= endTimes[ei]
      invariant from <= ei <= |endTimes|
      invariant ei == 0 || endTimes[ei - 1] <= s
    {
      ei := ei + 1;
    }
    CursorIsFirstAbove(endTimes, s, ei);
  }

  /** Entering step `k`, the end times the cursor has passed are not after
      the new start. */
  lemma CursorStillBelow(starts: seq<int>, ends: seq<int>, k: int, ei: int)
    requires StrictlyIncreasing(starts) && 0 <= k < |starts| && 0 <= ei <= |ends|
    requires k > 0 ==> ei == FirstAbove(ends, starts[k - 1])
    requires k == 0 ==> ei == 0
    ensures ei == 0 || ends[ei - 1] <= starts[k]
  {
    if k > 0 {
      assert starts[k - 1] < starts[k];
    }
  }

  lemma CursorIsFirstAbove(ends: seq<int>, s: int, i: int)
    requires StrictlyIncreasing(ends) && 0 <= i <= |ends|
    requires i == 0 || ends[i - 1] <= s
    requires i < |ends| ==> ends[i] > s
    ensures FirstAbove(ends, s) == i
  {
    forall m | 0 <= m < i ensures ends[m] <= s {
      if m < i - 1 { assert ends[m] < ends[i - 1]; }
    }
    FirstAboveIs(ends, s, i);
  }

  lemma {:induction false} FirstAboveIs(ends: seq<int>, s: int, i: int)
    requires 0 <= i <= |ends|
    requires forall m :: 0 <= m < i ==> ends[m] <= s
    requires i < |ends| ==> ends[i] > s
    ensures FirstAbove(ends, s) == i
    decreases |ends|
  {
    if ends != [] && ends[0] <= s && i > 0 {
      FirstAboveIs(ends[1..], s, i - 1);
    }
  }

  lemma {:induction false} FirstAboveMonotonic(ends: seq<int>, s: int, t: int)
    requires s <= t
    ensures FirstAbove(ends, s) <= FirstAbove(ends, t)
    decreases |ends|
  {
    if ends != [] && ends[0] <= s {
      FirstAboveMonotonic(ends[1..], s, t);
    }
  }

  /** Once no end time follows a start, no later start opens a row. */
  lemma {:induction false} NoRowsAfter(starts: seq<int>, ends: seq<int>, k: nat)
    requires StrictlyIncreasing(starts) && k < |starts|
    requires FirstAbove(ends, starts[k]) == |ends|
    ensures forall n :: k <= n <= |starts| ==> Rows(starts, ends, n) == Rows(starts, ends, k)
  {
    forall n | k <= n <= |starts| ensures Rows(starts, ends, n) == Rows(starts, ends, k) {
      NoRowsBetween(starts, ends, k, n);
    }
  }

  lemma {:induction false} NoRowsBetween(starts: seq<int>, ends: seq<int>, k: nat, n: nat)
    requires StrictlyIncreasing(starts) && k < |starts| && k <= n <= |starts|
    requires FirstAbove(ends, starts[k]) == |ends|
    ensures Rows(starts, ends, n) == Rows(starts, ends, k)
    decreases n
  {
    if n > k {
      NoRowsBetween(starts, ends, k, n - 1);
      if n - 1 > k {
        assert starts[k] < starts[n - 1];
      }
      FirstAboveMonotonic(ends, starts[k], starts[n - 1]);
    }
  }

  /** A row `(s, e)` of the axis: `s` is a start time and `e` is the first
      end time after it, and no start time lies strictly inside it. */
  predicate IsSlot(starts: seq<int>, ends: seq<int>, r: (int, int)) {
    && r.0 in starts && r.1 in ends && r.0 < r.1
    && (forall e :: e in ends && e > r.0 ==> r.1 <= e)
    && (forall s :: s in starts && s > r.0 ==> r.1 <= s)
  }

  /** The row opened by start time `k` runs from it to the first end time
      after it, and ends no later than any later start time. */
  lemma RowAtIsSlot(starts: seq<int>, ends: seq<int>, k: nat)
    requires StrictlyIncreasing(starts) && StrictlyIncreasing(ends) && k < |starts|
    ensures forall r :: r in RowAt(starts, ends, k) ==> r.0 == starts[k] && IsSlot(starts, ends, r)
  {
    var i := FirstAbove(ends, starts[k]);
    if RowAt(starts, ends, k) != [] {
      forall e | e in ends && e > starts[k] ensures ends[i] <= e {
        var m :| 0 <= m < |ends| && ends[m] == e;
        assert m >= i;
      }
      forall s | s in starts && s > starts[k] ensures ends[i] <= s {
        var m :| 0 <= m < |starts| && starts[m] == s;
        assert m > k;
        if m > k + 1 { assert starts[k + 1] < starts[m]; }
      }
    }
  }

  /** What each row of the axis is: it runs from a start time to the first
      end time after it, it is non-empty, it ends no later than the next
      start time, and the rows' starts strictly increase. */
  lemma {:induction false} RowsAreSlots(starts: seq<int>, ends: seq<int>, n: nat)
    requires StrictlyIncreasing(starts) && StrictlyIncreasing(ends) && n <= |starts|
    ensures forall r :: r in Rows(starts, ends, n) ==> IsSlot(starts, ends, r)
    ensures forall a, b :: 0 <= a < b < |Rows(starts, ends, n)| ==>
              Rows(starts, ends, n)[a].0 < Rows(starts, ends, n)[b].0
    ensures forall r :: r in Rows(starts, ends, n) ==> r.0 in starts[..n]
  {
    if n > 0 {
      RowsAreSlots(starts, ends, n - 1);
      RowAtIsSlot(starts, ends, n - 1);
      var prev := Rows(starts, ends, n - 1);
      var row := RowAt(starts, ends, n - 1);
      assert Rows(starts, ends, n) == prev + row;
      forall r | r in prev ensures r.0 < starts[n - 1] && r.0 in starts[..n] {
        var m :| 0 <= m < n - 1 && starts[..n - 1][m] == r.0;
        assert starts[..n][m] == r.0;
      }
      assert forall r :: r in row ==> r.0 == starts[..n][n - 1];
    }
  }

  /** A start time opens a row exactly when some end time follows it and the
      first such end is not later than the next start time. */
  lemma RowIff(starts: seq<int>, ends: seq<int>, k: nat)
    requires StrictlyIncreasing(starts) && StrictlyIncreasing(ends) && k < |starts|
    ensures (exists e :: (starts[k], e) in Rows(starts, ends, |starts|))
        <==> (exists e :: e in ends && e > starts[k])
             && (k + 1 == |starts| || ends[FirstAbove(ends, starts[k])] <= starts[k + 1])
  {
    var i := FirstAbove(ends, starts[k]);
    RowsAreSlots(starts, ends, |starts|);
    RowsSplit(starts, ends, k);
    if exists e :: (starts[k], e) in Rows(starts, ends, |starts|) {
      var e :| (starts[k], e) in Rows(starts, ends, |starts|);
      var n := RowOwner(starts, ends, |starts|, (starts[k], e));
      assert n == k;
    }
    if i < |ends| {
      assert ends[i] in ends;
    }
  }

  lemma RowsSplit(starts: seq<int>, ends: seq<int>, k: nat)
    requires k < |starts|
    ensures forall r :: r in RowAt(starts, ends, k) ==> r in Rows(starts, ends, |starts|)
  {
    RowsGrow(starts, ends, k + 1, |starts|);
  }

  lemma {:induction false} RowsGrow(starts: seq<int>, ends: seq<int>, m: nat, n: nat)
    requires 0 < m <= n <= |starts|
    ensures forall r :: r in RowAt(starts, ends, m - 1) ==> r in Rows(starts, ends, n)
    decreases n - m
  {
    if m < n {
      RowsGrow(starts, ends, m, n - 1);
    }
  }

  /** The row with start `r.0` was opened by the start time with that value. */
  lemma {:induction false} RowOwner(starts: seq<int>, ends: seq<int>, n: nat, r: (int, int)) returns (k: nat)
    requires StrictlyIncreasing(starts) && n <= |starts| && r in Rows(starts, ends, n)
    ensures k < n && starts[k] == r.0 && r in RowAt(starts, ends, k)
  {
    var prev := Rows(starts, ends, n - 1);
    assert Rows(starts, ends, n) == prev + RowAt(starts, ends, n - 1);
    if r in prev {
      k := RowOwner(starts, ends, n - 1, r);
    } else {
      k := n - 1;
    }
  }
}
