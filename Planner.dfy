/** The planner: scores every task, ranks them, and deals them into the four
    buckets of the daily plan (Top 3, Next 5, Unblock, Defer). */
module Planner {
  import opened Text
  import opened Scoring
  import opened Ranking

  const Top3Count: nat := 3
  const Next5Count: nat := 5

  // ---------------------------------------------------------------------------
  // The plan
  // ---------------------------------------------------------------------------

  /** One serialised bucket entry. The deadline stays a day number. */
  datatype PlanItem = PlanItem(
    title: string,
    description: string,
    deadline: Option<int>,
    effortMin: int,
    impact: int,
    blocked: bool,
    tags: seq<string>,
    score: real,
    reason: string,
    scoreBreakdown: Breakdown)

  /** The configuration a plan records about itself. */
  datatype Assumptions = Assumptions(
    effortDefaultsMin: map<string, int>,
    impactMap: map<string, int>,
    weights: map<string, real>,
    top3Count: nat,
    next5Count: nat)

  const PlanAssumptions: Assumptions := Assumptions(
    EffortDefaultsMin,
    ImpactMap,
    map["urgency" := UrgencyWeight, "importance" := ImportanceWeight,
        "quickwin_bonus" := QuickwinWeight, "blocked_penalty" := BlockedPenaltyWeight],
    Top3Count,
    Next5Count)

  datatype Plan = Plan(
    generatedOn: int,
    top3: seq<PlanItem>,
    next5: seq<PlanItem>,
    unblock: seq<PlanItem>,
    defer: seq<PlanItem>,
    assumptions: Assumptions)

  // ---------------------------------------------------------------------------
  // The buckets, as functions of the input
  // ---------------------------------------------------------------------------

  function ScoreEntry(t: Task, today: int): Scored {
    var (s, b) := ComputeScore(t, today);
    Scored(t, s, b)
  }

  function ScoreAll(tasks: seq<Task>, today: int): (r: seq<Scored>)
    ensures |r| == |tasks|
    ensures forall i :: 0 <= i < |tasks| ==> r[i].task == tasks[i]
  {
    seq(|tasks|, i requires 0 <= i < |tasks| => ScoreEntry(tasks[i], today))
  }

  /** The scored tasks in plan order. */
  function Ranked(tasks: seq<Task>, today: int): seq<Scored> {
    SortByPriority(ScoreAll(tasks, today))
  }

  function UnblockedOf(s: seq<Scored>): (r: seq<Scored>)
    ensures forall e :: e in r ==> e in s && !e.task.blocked
    decreases |s|
  {
    if s == [] then []
    else (if !s[0].task.blocked then [s[0]] else []) + UnblockedOf(s[1..])
  }

  function BlockedOf(s: seq<Scored>): (r: seq<Scored>)
    ensures forall e :: e in r ==> e in s && e.task.blocked
    decreases |s|
  {
    if s == [] then []
    else (if s[0].task.blocked then [s[0]] else []) + BlockedOf(s[1..])
  }

  /** Python's `s[lo:hi]`: both bounds are clamped to the length, and the
      slice is empty when `lo` is not below `hi`. */
  function Slice(s: seq<Scored>, lo: nat, hi: nat): (r: seq<Scored>)
    ensures var l, h := Min(lo, |s|), Min(hi, |s|);
      r == if l < h then s[l..h] else []
  {
    var l := if lo <= |s| then lo else |s|;
    var h := if hi <= |s| then hi else |s|;
    if l < h then s[l..h] else []
  }

  function Min(a: int, b: int): int {
    if a <= b then a else b
  }

  /** Low on both axes: urgency at most 1 and impact at most 1. */
  predicate Deferrable(e: Scored, today: int) {
    UrgencyScore(DaysUntil(e.task.deadline, today)) <= 1.0 && e.task.impact <= 1
  }

  /** The deferrable entries of `s`, in order. */
  function DeferFrom(s: seq<Scored>, today: int): (r: seq<Scored>)
    ensures forall e :: e in r ==> e in s && Deferrable(e, today)
    decreases |s|
  {
    if s == [] then []
    else DeferFrom(s[..|s| - 1], today) + (if Deferrable(s[|s| - 1], today) then [s[|s| - 1]] else [])
  }

  /** The entries of `s` that no bucket takes. */
  function DroppedFrom(s: seq<Scored>, today: int): (r: seq<Scored>)
    ensures forall e :: e in r ==> e in s && !Deferrable(e, today)
    decreases |s|
  {
    if s == [] then []
    else DroppedFrom(s[..|s| - 1], today) + (if Deferrable(s[|s| - 1], today) then [] else [s[|s| - 1]])
  }

  datatype Buckets = Buckets(top3: seq<Scored>, next5: seq<Scored>, unblock: seq<Scored>, defer: seq<Scored>)

  /** The unblocked entries past the Top 3 and Next 5 windows. */
  function RemainderOf(ranked: seq<Scored>): seq<Scored> {
    var u := UnblockedOf(ranked);
    Slice(u, Top3Count + Next5Count, |u|)
  }

  /** The buckets dealt from a ranked list. */
  function BucketsOf(ranked: seq<Scored>, today: int): Buckets {
    var u := UnblockedOf(ranked);
    Buckets(
      Slice(u, 0, Top3Count),
      Slice(u, Top3Count, Top3Count + Next5Count),
      BlockedOf(ranked),
      DeferFrom(RemainderOf(ranked), today))
  }

  function Remainder(tasks: seq<Task>, today: int): seq<Scored> {
    RemainderOf(Ranked(tasks, today))
  }

  /** The buckets of the plan for `tasks` on day `today`. */
  function PlanBuckets(tasks: seq<Task>, today: int): Buckets {
    BucketsOf(Ranked(tasks, today), today)
  }

  // ---------------------------------------------------------------------------
  // Serialisation and the plan builder
  // ---------------------------------------------------------------------------

  function ItemOf(e: Scored, today: int): PlanItem {
    var t := e.task;
    PlanItem(t.title, t.description, t.deadline, t.effortMin, t.impact, t.blocked, t.tags,
             e.score, Join(ReasonLabels(t, today), ", "), e.breakdown)
  }

  function Items(entries: seq<Scored>, today: int): (r: seq<PlanItem>)
    ensures |r| == |entries|
  {
    seq(|entries|, i requires 0 <= i < |entries| => ItemOf(entries[i], today))
  }

  /** One plan record per entry, in order, each carrying its reason. */
  method Serialize(entries: seq<Scored>, today: int) returns (out: seq<PlanItem>)
    ensures out == Items(entries, today)
  {
    out := [];
    for i := 0 to |entries|
      invariant |out| == i
      invariant forall k :: 0 <= k < i ==> out[k] == ItemOf(entries[k], today)
    {
      var e := entries[i];
      var why := Reason(e.task, e.breakdown, today);
      out := out + [PlanItem(e.task.title, e.task.description, e.task.deadline, e.task.effortMin,
                             e.task.impact, e.task.blocked, e.task.tags, e.score, why, e.breakdown)];
    }
  }

  /** Builds the daily plan for `tasks` as of day `today`. */
  method BuildPlan(tasks: seq<Task>, today: int) returns (plan: Plan)
    ensures var b := PlanBuckets(tasks, today);
      plan == Plan(today, Items(b.top3, today), Items(b.next5, today),
                   Items(b.unblock, today), Items(b.defer, today), PlanAssumptions)
    ensures |plan.top3| <= Top3Count && |plan.next5| <= Next5Count
    ensures forall i :: 0 <= i < |plan.top3| ==> !plan.top3[i].blocked
    ensures forall i :: 0 <= i < |plan.next5| ==> !plan.next5[i].blocked
    ensures forall i :: 0 <= i < |plan.defer| ==> !plan.defer[i].blocked
    ensures forall i :: 0 <= i < |plan.unblock| ==> plan.unblock[i].blocked
    ensures forall i :: 0 <= i < |plan.defer| ==>
      plan.defer[i].scoreBreakdown.urgency <= 1.0 && plan.defer[i].impact <= 1
  {
    var scored: seq<Scored> := [];
    for i := 0 to |tasks|
      invariant |scored| == i
      invariant forall k :: 0 <= k < i ==> scored[k] == ScoreEntry(tasks[k], today)
    {
      var (s, b) := ComputeScore(tasks[i], today);
      scored := scored + [Scored(tasks[i], s, b)];
    }
    assert scored == ScoreAll(tasks, today);
    scored := SortByPriority(scored);
    assert scored == Ranked(tasks, today);

    var unblocked := UnblockedOf(scored);
    var blocked := BlockedOf(scored);
    var top3 := Slice(unblocked, 0, Top3Count);
    var next5 := Slice(unblocked, Top3Count, Top3Count + Next5Count);

    var rest := Slice(unblocked, Top3Count + Next5Count, |unblocked|);
    var defer: seq<Scored> := [];
    for i := 0 to |rest|
      invariant defer == DeferFrom(rest[..i], today)
    {
      var e := rest[i];
      var lowUrg := UrgencyScore(DaysUntil(e.task.deadline, today)) <= 1.0;
      var lowImp := e.task.impact <= 1;
      assert rest[..i + 1][..i] == rest[..i];
      if lowUrg && lowImp {
        defer := defer + [e];
      }
    }
    assert rest[..|rest|] == rest;

    assert rest == Remainder(tasks, today);
    assert Buckets(top3, next5, blocked, defer) == PlanBuckets(tasks, today);

    var top3Items := Serialize(top3, today);
    var next5Items := Serialize(next5, today);
    var unblockItems := Serialize(blocked, today);
    var deferItems := Serialize(defer, today);
    plan := Plan(today, top3Items, next5Items, unblockItems, deferItems, PlanAssumptions);
    PlanItemFacts(tasks, today);
  }

  /** The serialised buckets keep the sizes and flags of the buckets. */
  lemma PlanItemFacts(tasks: seq<Task>, today: int)
    ensures var b := PlanBuckets(tasks, today);
      var top3, next5 := Items(b.top3, today), Items(b.next5, today);
      var unblock, defer := Items(b.unblock, today), Items(b.defer, today);
      |top3| <= Top3Count && |next5| <= Next5Count &&
      (forall i :: 0 <= i < |top3| ==> !top3[i].blocked) &&
      (forall i :: 0 <= i < |next5| ==> !next5[i].blocked) &&
      (forall i :: 0 <= i < |defer| ==> !defer[i].blocked) &&
      (forall i :: 0 <= i < |unblock| ==> unblock[i].blocked) &&
      (forall i :: 0 <= i < |defer| ==> defer[i].scoreBreakdown.urgency <= 1.0 && defer[i].impact <= 1)
  {
    var b := PlanBuckets(tasks, today);
    BucketMembers(tasks, today);
    ItemsKeepFlags(b.top3, today, false);
    ItemsKeepFlags(b.next5, today, false);
    ItemsKeepFlags(b.unblock, today, true);
    ItemsKeepFlags(b.defer, today, false);
    DeferItemsLow(b.defer, today);
  }

  /** Entries that share a blocked flag serialise to items with that flag. */
  lemma ItemsKeepFlags(entries: seq<Scored>, today: int, flag: bool)
    requires forall e :: e in entries ==> e.task.blocked == flag
    ensures forall i :: 0 <= i < |Items(entries, today)| ==> Items(entries, today)[i].blocked == flag
  {
    forall i | 0 <= i < |entries| ensures Items(entries, today)[i].blocked == flag {
      assert entries[i] in entries;
    }
  }

  /** Low-priority entries serialise to items with low urgency and impact. */
  lemma DeferItemsLow(entries: seq<Scored>, today: int)
    requires forall e :: e in entries ==> e.breakdown.urgency <= 1.0 && e.task.impact <= 1
    ensures forall i :: 0 <= i < |Items(entries, today)| ==>
      Items(entries, today)[i].scoreBreakdown.urgency <= 1.0 && Items(entries, today)[i].impact <= 1
  {
    forall i | 0 <= i < |entries|
      ensures Items(entries, today)[i].scoreBreakdown.urgency <= 1.0 && Items(entries, today)[i].impact <= 1
    {
      assert entries[i] in entries;
    }
  }

  // ---------------------------------------------------------------------------
  // Properties of the buckets
  // ---------------------------------------------------------------------------

  /** Every ranked entry carries the score and breakdown of its own task. */
  lemma ScoredBreakdown(tasks: seq<Task>, today: int, e: Scored)
    requires e in multiset(Ranked(tasks, today)) || e in UnblockedOf(Ranked(tasks, today))
    ensures e == ScoreEntry(e.task, today)
  {
    assert e in Ranked(tasks, today);
    assert e in multiset(ScoreAll(tasks, today));
  }

  /** What each bucket may hold: Top 3 and Next 5 at most three and five
      unblocked entries, Unblock only blocked ones, Defer only unblocked ones
      that are low on urgency and on impact. */
  lemma BucketMembers(tasks: seq<Task>, today: int)
    ensures var b := PlanBuckets(tasks, today);
      |b.top3| <= Top3Count && |b.next5| <= Next5Count &&
      (forall e :: e in b.top3 ==> !e.task.blocked) &&
      (forall e :: e in b.next5 ==> !e.task.blocked) &&
      (forall e :: e in b.unblock ==> e.task.blocked) &&
      (forall e :: e in b.defer ==>
        !e.task.blocked && e.breakdown.urgency <= 1.0 && e.task.impact <= 1)
  {
    var b := PlanBuckets(tasks, today);
    var u := UnblockedOf(Ranked(tasks, today));
    forall e | e in b.defer
      ensures !e.task.blocked && e.breakdown.urgency <= 1.0 && e.task.impact <= 1
    {
      assert e in Remainder(tasks, today);
      assert e in u;
      ScoredBreakdown(tasks, today, e);
    }
  }

  /** Each unblocked entry keeps its number of copies in the unblocked
      group, each blocked one in the blocked group. */
  lemma {:induction false} GroupCounts(s: seq<Scored>, e: Scored)
    ensures multiset(UnblockedOf(s))[e] == (if e.task.blocked then 0 else multiset(s)[e])
    ensures multiset(BlockedOf(s))[e] == (if e.task.blocked then multiset(s)[e] else 0)
    decreases |s|
  {
    if s != [] {
      GroupCounts(s[1..], e);
      assert s == [s[0]] + s[1..];
      assert multiset(s)[e] == multiset([s[0]])[e] + multiset(s[1..])[e];
      var hu := if !s[0].task.blocked then [s[0]] else [];
      var hb := if s[0].task.blocked then [s[0]] else [];
      assert multiset(UnblockedOf(s))[e] == multiset(hu)[e] + multiset(UnblockedOf(s[1..]))[e];
      assert multiset(BlockedOf(s))[e] == multiset(hb)[e] + multiset(BlockedOf(s[1..]))[e];
    }
  }

  /** Splitting by the blocked flag loses and duplicates nothing. */
  lemma SplitMultiset(s: seq<Scored>)
    ensures multiset(UnblockedOf(s)) + multiset(BlockedOf(s)) == multiset(s)
  {
    forall e ensures (multiset(UnblockedOf(s)) + multiset(BlockedOf(s)))[e] == multiset(s)[e] {
      GroupCounts(s, e);
    }
  }

  /** The unblocked and blocked groups of two permutations are permutations. */
  lemma GroupsOfPermutation(s: seq<Scored>, t: seq<Scored>)
    requires multiset(s) == multiset(t)
    ensures multiset(UnblockedOf(s)) == multiset(UnblockedOf(t))
    ensures multiset(BlockedOf(s)) == multiset(BlockedOf(t))
  {
    forall e ensures multiset(UnblockedOf(s))[e] == multiset(UnblockedOf(t))[e] {
      GroupCounts(s, e);
      GroupCounts(t, e);
    }
    forall e ensures multiset(BlockedOf(s))[e] == multiset(BlockedOf(t))[e] {
      GroupCounts(s, e);
      GroupCounts(t, e);
    }
  }

  lemma {:induction false} DeferDroppedMultiset(s: seq<Scored>, today: int)
    ensures multiset(DeferFrom(s, today)) + multiset(DroppedFrom(s, today)) == multiset(s)
    decreases |s|
  {
    if s != [] {
      var n := |s| - 1;
      DeferDroppedMultiset(s[..n], today);
      assert s == s[..n] + [s[n]];
    }
  }

  /** How Python's slices cut the unblocked list into the two windows and
      the remainder. */
  lemma WindowSplit(u: seq<Scored>)
    ensures var m := Min(Top3Count + Next5Count, |u|);
      Slice(u, 0, Top3Count) + Slice(u, Top3Count, Top3Count + Next5Count) == u[..m] &&
      Slice(u, Top3Count + Next5Count, |u|) == u[m..] &&
      |Slice(u, 0, Top3Count)| == Min(Top3Count, |u|) &&
      |Slice(u, Top3Count, Top3Count + Next5Count)| <= Next5Count
  {
  }

  /** Top 3 and Next 5 are the first three and the next five unblocked tasks
      in rank order: Top 3 is as full as the unblocked tasks allow, and the
      two together are a prefix of the ranked unblocked tasks, which are the
      unblocked input tasks. */
  lemma TopNextPrefix(tasks: seq<Task>, today: int)
    ensures var b, u := PlanBuckets(tasks, today), UnblockedOf(Ranked(tasks, today));
      |b.top3| == Min(Top3Count, |u|) &&
      |b.next5| <= Next5Count &&
      b.top3 + b.next5 == u[..Min(Top3Count + Next5Count, |u|)] &&
      |b.top3| + |b.next5| <= |u|
    ensures multiset(UnblockedOf(Ranked(tasks, today))) == multiset(UnblockedOf(ScoreAll(tasks, today)))
  {
    WindowSplit(UnblockedOf(Ranked(tasks, today)));
    GroupsOfPermutation(Ranked(tasks, today), ScoreAll(tasks, today));
  }

  lemma BucketsOfPartition(ranked: seq<Scored>, today: int)
    ensures var b := BucketsOf(ranked, today);
      multiset(b.top3) + multiset(b.next5) + multiset(b.unblock) + multiset(b.defer)
        + multiset(DroppedFrom(RemainderOf(ranked), today))
      == multiset(ranked)
  {
    var u := UnblockedOf(ranked);
    var b := BucketsOf(ranked, today);
    var rest := RemainderOf(ranked);
    var m := Min(Top3Count + Next5Count, |u|);
    assert b.top3 + b.next5 == Slice(u, 0, Top3Count) + Slice(u, Top3Count, Top3Count + Next5Count);
    assert rest == Slice(u, Top3Count + Next5Count, |u|);
    WindowSplit(u);
    assert u == u[..m] + u[m..];
    assert u == (b.top3 + b.next5) + rest;
    assert multiset(u) == multiset(b.top3) + multiset(b.next5) + multiset(rest);
    DeferDroppedMultiset(rest, today);
    assert multiset(rest) == multiset(b.defer) + multiset(DroppedFrom(rest, today));
    SplitMultiset(ranked);
    assert multiset(ranked) == multiset(u) + multiset(b.unblock);
  }

  /** The buckets deal out the scored tasks exactly: together with the
      remainder entries that no bucket takes, Top 3, Next 5, Unblock and Defer
      hold every scored task once. Unblock holds every blocked task. */
  lemma BucketsPartition(tasks: seq<Task>, today: int)
    ensures var b := PlanBuckets(tasks, today);
      multiset(b.top3) + multiset(b.next5) + multiset(b.unblock) + multiset(b.defer)
        + multiset(DroppedFrom(Remainder(tasks, today), today))
      == multiset(ScoreAll(tasks, today))
    ensures multiset(PlanBuckets(tasks, today).unblock) == multiset(BlockedOf(ScoreAll(tasks, today)))
  {
    BucketsOfPartition(Ranked(tasks, today), today);
    GroupsOfPermutation(Ranked(tasks, today), ScoreAll(tasks, today));
  }

  /** No task is in two buckets and none is counted twice. */
  lemma BucketsDisjoint(tasks: seq<Task>, today: int)
    ensures var b := PlanBuckets(tasks, today);
      multiset(b.top3) + multiset(b.next5) + multiset(b.unblock) + multiset(b.defer)
      <= multiset(ScoreAll(tasks, today))
    ensures var b := PlanBuckets(tasks, today);
      |b.top3| + |b.next5| + |b.unblock| + |b.defer| <= |tasks|
  {
    BucketsPartition(tasks, today);
    var b := PlanBuckets(tasks, today);
    var d := DroppedFrom(Remainder(tasks, today), today);
    assert |multiset(b.top3) + multiset(b.next5) + multiset(b.unblock) + multiset(b.defer) + multiset(d)|
        == |b.top3| + |b.next5| + |b.unblock| + |b.defer| + |d|;
  }

  /** Defer takes, in rank order, exactly the remainder entries that are low on
      both axes: no deadline or one more than a week away, and low impact. The
      other remainder entries are dropped. */
  lemma DeferIsLowPriorityRemainder(tasks: seq<Task>, today: int)
    ensures var rest := Remainder(tasks, today);
      var b := PlanBuckets(tasks, today);
      multiset(b.defer) + multiset(DroppedFrom(rest, today)) == multiset(rest) &&
      (forall e :: e in b.defer ==> e in rest && Deferrable(e, today)) &&
      (forall e :: e in rest && e !in b.defer ==> !Deferrable(e, today))
    ensures forall e: Scored :: Deferrable(e, today) <==>
      (e.task.deadline.None? || e.task.deadline.value > today + 7) && e.task.impact <= 1
  {
    var rest := Remainder(tasks, today);
    DeferDroppedMultiset(rest, today);
    forall e | e in rest && e !in PlanBuckets(tasks, today).defer
      ensures !Deferrable(e, today)
    {
      assert e in multiset(rest);
      assert e in multiset(DroppedFrom(rest, today));
    }
    forall e: Scored
      ensures Deferrable(e, today) <==>
        (e.task.deadline.None? || e.task.deadline.value > today + 7) && e.task.impact <= 1
    {
      UrgencyLowIffFar(DaysUntil(e.task.deadline, today));
    }
  }

  lemma {:induction false} UnblockedSorted(s: seq<Scored>)
    requires Sorted(s)
    ensures Sorted(UnblockedOf(s)) && Sorted(BlockedOf(s))
    decreases |s|
  {
    if s != [] {
      UnblockedSorted(s[1..]);
      forall e | e in s[1..] ensures Ranks(s[0], e) {
        var k :| 0 <= k < |s[1..]| && s[1..][k] == e;
        assert s[k + 1] == e;
      }
      SortedCons(s[0], UnblockedOf(s[1..]));
      SortedCons(s[0], BlockedOf(s[1..]));
    }
  }

  lemma SortedCons(x: Scored, t: seq<Scored>)
    requires Sorted(t) && forall e :: e in t ==> Ranks(x, e)
    ensures Sorted([x] + t)
  {
    var r := [x] + t;
    forall i, j | 0 <= i < j < |r| ensures Ranks(r[i], r[j]) {
      if i > 0 {
        assert r[i] == t[i - 1] && r[j] == t[j - 1];
      } else {
        assert r[j] in t;
      }
    }
  }

  lemma {:induction false} DeferSorted(s: seq<Scored>, today: int)
    requires Sorted(s)
    ensures Sorted(DeferFrom(s, today))
    decreases |s|
  {
    if s != [] {
      var n := |s| - 1;
      DeferSorted(s[..n], today);
      var d := DeferFrom(s[..n], today);
      var r := DeferFrom(s, today);
      forall i, j | 0 <= i < j < |r| ensures Ranks(r[i], r[j]) {
        if j < |d| {
          assert r[i] == d[i] && r[j] == d[j];
        } else {
          assert r[i] == d[i] && d[i] in s[..n];
          var k :| 0 <= k < n && s[..n][k] == d[i];
          assert r[j] == s[n];
        }
      }
    }
  }

  lemma BucketsOfInRankOrder(ranked: seq<Scored>, today: int)
    requires Sorted(ranked)
    ensures var b := BucketsOf(ranked, today);
      Sorted(b.top3 + b.next5) && Sorted(b.unblock) && Sorted(b.defer) &&
      (forall i, j :: 0 <= i < |b.top3 + b.next5| && 0 <= j < |b.defer| ==>
        Ranks((b.top3 + b.next5)[i], b.defer[j]))
  {
    var u := UnblockedOf(ranked);
    var b := BucketsOf(ranked, today);
    var rest := RemainderOf(ranked);
    var m := Min(Top3Count + Next5Count, |u|);
    UnblockedSorted(ranked);
    WindowSplit(u);
    var front := b.top3 + b.next5;
    assert front == u[..m] && rest == u[m..];
    DeferSorted(rest, today);
    forall i, j | 0 <= i < |front| && 0 <= j < |b.defer| ensures Ranks(front[i], b.defer[j]) {
      assert b.defer[j] in rest;
      var k :| 0 <= k < |rest| && rest[k] == b.defer[j];
      assert front[i] == u[i] && rest[k] == u[m + k];
    }
  }

  /** Each bucket lists its tasks in rank order, and every Top 3 or Next 5
      entry ranks no lower than every deferred one. */
  lemma BucketsInRankOrder(tasks: seq<Task>, today: int)
    ensures var b := PlanBuckets(tasks, today);
      Sorted(b.top3 + b.next5) && Sorted(b.unblock) && Sorted(b.defer) &&
      (forall i, j :: 0 <= i < |b.top3 + b.next5| && 0 <= j < |b.defer| ==>
        Ranks((b.top3 + b.next5)[i], b.defer[j]))
  {
    BucketsOfInRankOrder(Ranked(tasks, today), today);
  }

  /** No tasks, no entries in any bucket. */
  lemma EmptyInputEmptyPlan(today: int)
    ensures PlanBuckets([], today) == Buckets([], [], [], [])
  {
  }

  /** When every task is blocked, Unblock holds them all in rank order and
      the other buckets are empty. */
  lemma AllBlockedPlan(tasks: seq<Task>, today: int)
    requires forall i :: 0 <= i < |tasks| ==> tasks[i].blocked
    ensures PlanBuckets(tasks, today) == Buckets([], [], Ranked(tasks, today), [])
  {
    var ranked := Ranked(tasks, today);
    forall e | e in ranked ensures e.task.blocked {
      assert e in multiset(ScoreAll(tasks, today));
    }
    AllOneGroup(ranked);
  }

  lemma {:induction false} AllOneGroup(s: seq<Scored>)
    requires forall e :: e in s ==> e.task.blocked
    ensures UnblockedOf(s) == [] && BlockedOf(s) == s
    decreases |s|
  {
    if s != [] {
      AllOneGroup(s[1..]);
    }
  }

  /** A lone unblocked task heads the plan, whatever its score. */
  lemma LoneTaskOnTop(t: Task, today: int)
    requires !t.blocked
    ensures PlanBuckets([t], today) == Buckets([ScoreEntry(t, today)], [], [], [])
  {
    var e := ScoreEntry(t, today);
    assert ScoreAll([t], today) == [e];
    assert Insert(e, []) == [e];
    assert Ranked([t], today) == [e];
    assert UnblockedOf([e]) == [e];
    assert BlockedOf([e]) == [];
  }
}
