/**
 What the run-history store holds and shows, in terms of the records' own fields
 (_write_all, _within_max_age, record_from_logs, record_failure and get_history of
 service/run_history.py): which records survive a write, which do not and why, in
 what order they are stored, which count as seen before, and what a view contains.
 */
module RunHistoryContents {
  import opened Wrappers
  import opened Seqs
  import opened StableSort
  import opened RunHistory

  /** _within_max_age: a readable timestamp no earlier than the cutoff, which is now less the maximal age. */
  predicate Young(r: Record, cutoff: int) {
    match r.time
    case None => false
    case Some(t) => cutoff <= t
  }

  // ---- What a write stores ----

  /** The length of s[-cap:] for a list of n. */
  function CutLength(n: nat, cap: int): nat {
    if cap > 0 then (if cap <= n then cap else n) else if -cap <= n then n + cap else 0
  }

  /** The n-th and later elements of a list that was cut: which Python slice it was. */
  lemma NewestIsSuffix(s: seq<Record>, cap: int) returns (k: nat)
    ensures k <= |s| && Newest(s, cap) == s[k..]
    ensures |s| - k == CutLength(|s|, cap)
  {
    k := |s| - |Newest(s, cap)|;
  }

  lemma InSuffix(s: seq<Record>, k: nat, r: Record)
    requires k <= |s|
    ensures multiset(s[k..])[r] <= multiset(s)[r]
  {
    assert s == s[..k] + s[k..];
  }

  lemma InPrefix(s: seq<Record>, k: nat, r: Record)
    requires k <= |s|
    ensures multiset(s[..k])[r] <= multiset(s)[r]
  {
    assert s == s[..k] + s[k..];
  }

  lemma StageCopies(rs: seq<Record>, stage: Option<string>, cutoff: int, r: Record)
    ensures multiset(StageFresh(rs, stage, cutoff))[r] <= multiset(rs)[r]
  {
    SelectCount(rs, Fresh(cutoff), r);
    SelectCount(Select(rs, Fresh(cutoff)), InStage(stage), r);
  }

  lemma KeptCopies(rs: seq<Record>, stage: Option<string>, cutoff: int, cap: int, r: Record)
    ensures multiset(Kept(rs, stage, cutoff, cap))[r] <= multiset(rs)[r]
  {
    var mine := StageFresh(rs, stage, cutoff);
    var k := NewestIsSuffix(Sort(mine, TimeKey), cap);
    InSuffix(Sort(mine, TimeKey), k, r);
    SortCount(mine, TimeKey);
    StageCopies(rs, stage, cutoff, r);
  }

  /** A write invents nothing: no record is stored more often than it was handed in, and every stored one is young. */
  lemma NothingIsInvented(rs: seq<Record>, cutoff: int, cap: int)
    ensures multiset(Pruned(rs, cutoff, cap)) <= multiset(rs)
    ensures forall r :: r in Pruned(rs, cutoff, cap) ==> Young(r, cutoff)
  {
    StoredIsYoung(rs, cutoff, cap);
    forall r ensures multiset(Pruned(rs, cutoff, cap))[r] <= multiset(rs)[r] {
      SelectCount(Pruned(rs, cutoff, cap), InStage(r.stage), r);
      WriteKeepsEachStage(rs, r.stage, cutoff, cap);
      KeptCopies(rs, r.stage, cutoff, cap, r);
    }
  }

  function OfStage(stage: Option<string>): Record -> bool {
    (r: Record) => r.stage == stage
  }

  function YoungOf(stage: Option<string>, cutoff: int): Record -> bool {
    (r: Record) => r.stage == stage && Young(r, cutoff)
  }

  lemma {:induction false} YoungOfStage(rs: seq<Record>, stage: Option<string>, cutoff: int)
    ensures StageFresh(rs, stage, cutoff) == Select(rs, YoungOf(stage, cutoff))
  {
    SelectBoth(rs, Fresh(cutoff), InStage(stage), YoungOf(stage, cutoff));
  }

  lemma StageOnly(rs: seq<Record>, stage: Option<string>)
    ensures Select(rs, InStage(stage)) == Select(rs, OfStage(stage))
  {
    SameSelection(rs, InStage(stage), OfStage(stage));
  }

  /** Of its own young records each stage keeps as many as the slice leaves, whatever other stages hold. */
  lemma StageHolds(rs: seq<Record>, stage: Option<string>, cutoff: int, cap: int)
    ensures |Select(Pruned(rs, cutoff, cap), OfStage(stage))| == CutLength(|Select(rs, YoungOf(stage, cutoff))|, cap)
  {
    StageOnly(Pruned(rs, cutoff, cap), stage);
    WriteKeepsEachStage(rs, stage, cutoff, cap);
    YoungOfStage(rs, stage, cutoff);
    var k := NewestIsSuffix(Sort(StageFresh(rs, stage, cutoff), TimeKey), cap);
  }

  lemma NotInSuffix(s: seq<Record>, k: nat, r: Record)
    requires Sorted(s, TimeKey) && k <= |s| && r in s && r !in s[k..]
    ensures k > 0 && forall x :: x in s[k..] ==> TimeKey(r) <= TimeKey(x)
  {
    var i :| 0 <= i < |s| && s[i] == r;
    assert forall j :: k <= j < |s| ==> s[k..][j - k] == s[j];
    forall x | x in s[k..] ensures TimeKey(r) <= TimeKey(x) {
      var j :| 0 <= j < |s[k..]| && s[k..][j] == x;
      assert s[k + j] == x;
    }
  }

  lemma MissingFromStage(rs: seq<Record>, r: Record, cutoff: int, cap: int)
    requires r in rs && Young(r, cutoff) && r !in Kept(rs, r.stage, cutoff, cap)
    ensures cap != 0 && forall x :: x in Kept(rs, r.stage, cutoff, cap) ==> TimeKey(r) <= TimeKey(x)
    ensures cap > 0 ==> |Kept(rs, r.stage, cutoff, cap)| == cap
  {
    var mine := StageFresh(rs, r.stage, cutoff);
    var s := Sort(mine, TimeKey);
    SelectMembers(rs, Fresh(cutoff));
    SelectMembers(Select(rs, Fresh(cutoff)), InStage(r.stage));
    InsertAllMembers(mine, [], TimeKey);
    InsertAllSorted(mine, [], TimeKey);
    var k := NewestIsSuffix(s, cap);
    NotInSuffix(s, k, r);
  }

  /**
   A record young enough is missing after a write only because of the cap: no stored record of its
   stage is older, and under a positive cap the stage holds exactly that many.
   */
  lemma MissingIsOutranked(rs: seq<Record>, r: Record, cutoff: int, cap: int)
    requires r in rs && Young(r, cutoff) && r !in Pruned(rs, cutoff, cap)
    ensures var stored := Pruned(rs, cutoff, cap);
      && cap != 0
      && (forall x :: x in stored && x.stage == r.stage ==> x.time.Some? && x.time.value >= r.time.value)
      && (cap > 0 ==> |Select(stored, OfStage(r.stage))| == cap)
  {
    var stored := Pruned(rs, cutoff, cap);
    WriteKeepsEachStage(rs, r.stage, cutoff, cap);
    SelectMembers(stored, InStage(r.stage));
    StageOnly(stored, r.stage);
    MissingFromStage(rs, r, cutoff, cap);
    StoredIsYoung(rs, cutoff, cap);
  }

  // ---- In what order ----

  lemma StoredAscends(rs: seq<Record>, cutoff: int, cap: int, i: nat, j: nat)
    requires i < j < |Pruned(rs, cutoff, cap)|
    ensures var a, b := Pruned(rs, cutoff, cap)[i], Pruned(rs, cutoff, cap)[j];
      a.time.Some? && b.time.Some? && a.time.value <= b.time.value
  {
    InsertAllSorted(Capped(StageOrder(Select(rs, Fresh(cutoff))), rs, cutoff, cap), [], TimeKey);
    StoredIsYoung(rs, cutoff, cap);
    assert Pruned(rs, cutoff, cap)[i] in Pruned(rs, cutoff, cap);
    assert Pruned(rs, cutoff, cap)[j] in Pruned(rs, cutoff, cap);
  }

  /** Among rs, a young record of stage a comes before every young record of stage b. */
  ghost predicate SeenBefore(rs: seq<Record>, cutoff: int, a: Option<string>, b: Option<string>) {
    exists k :: 0 <= k < |rs| && FirstOf(rs, cutoff, a, b, k)
  }

  predicate FirstOf(rs: seq<Record>, cutoff: int, a: Option<string>, b: Option<string>, k: nat)
    requires k < |rs|
  {
    && rs[k].stage == a && Young(rs[k], cutoff)
    && forall m :: 0 <= m <= k && Young(rs[m], cutoff) ==> rs[m].stage != b
  }

  /** Position i of the stage order was first seen at k, before position j. */
  lemma {:induction false} OrderIsFirstSeen(xs: seq<Record>, i: nat, j: nat) returns (k: nat)
    requires i < j < |StageOrder(xs)|
    ensures k < |xs| && xs[k].stage == StageOrder(xs)[i]
    ensures forall m :: 0 <= m <= k ==> xs[m].stage != StageOrder(xs)[j]
  {
    var front := xs[..|xs| - 1];
    StageOrderMembers(front);
    if j < |StageOrder(front)| {
      k := OrderIsFirstSeen(front, i, j);
    } else {
      assert StageOrder(front)[i] in StageOrder(front);
      k :| 0 <= k < |front| && front[k].stage == StageOrder(front)[i];
      forall m | 0 <= m <= k ensures xs[m].stage != StageOrder(xs)[j] {
        assert front[m].stage in StageOrder(front);
      }
    }
  }

  lemma OrderIsSeenBefore(rs: seq<Record>, cutoff: int, i: nat, j: nat)
    requires i < j < |StageOrder(Select(rs, Fresh(cutoff)))|
    ensures var order := StageOrder(Select(rs, Fresh(cutoff))); SeenBefore(rs, cutoff, order[i], order[j])
  {
    var alive, p := Select(rs, Fresh(cutoff)), Fresh(cutoff);
    var order := StageOrder(alive);
    var k := OrderIsFirstSeen(alive, i, j);
    var at := SelectPlace(rs, p, k);
    forall m | 0 <= m <= at && Young(rs[m], cutoff) ensures rs[m].stage != order[j] {
      if m < at {
        SelectMembers(rs[..at], p);
        assert rs[..at][m] in rs[..at];
        assert rs[m] in alive[..k];
      }
    }
    assert FirstOf(rs, cutoff, order[i], order[j], at);
  }

  /** Two records of a list of stage blocks: one stage, or the earlier block first. */
  lemma {:induction false} BlocksInOrder(
    order: seq<Option<string>>, rs: seq<Record>, cutoff: int, cap: int, i: nat, j: nat)
      returns (a: nat, b: nat)
    requires i < j < |Capped(order, rs, cutoff, cap)|
    ensures a <= b < |order|
    ensures order[a] == Capped(order, rs, cutoff, cap)[i].stage && order[b] == Capped(order, rs, cutoff, cap)[j].stage
  {
    var front, last := order[..|order| - 1], order[|order| - 1];
    var before, kept := Capped(front, rs, cutoff, cap), Kept(rs, last, cutoff, cap);
    KeptStage(rs, last, cutoff, cap);
    if j < |before| {
      a, b := BlocksInOrder(front, rs, cutoff, cap, i, j);
    } else {
      b := |order| - 1;
      assert Capped(order, rs, cutoff, cap)[j] == kept[j - |before|] && kept[j - |before|] in kept;
      if i < |before| {
        a := BlockOf(front, rs, cutoff, cap, i);
      } else {
        a := b;
        assert Capped(order, rs, cutoff, cap)[i] == kept[i - |before|] && kept[i - |before|] in kept;
      }
    }
  }

  lemma {:induction false} BlockOf(order: seq<Option<string>>, rs: seq<Record>, cutoff: int, cap: int, i: nat)
      returns (a: nat)
    requires i < |Capped(order, rs, cutoff, cap)|
    ensures a < |order| && order[a] == Capped(order, rs, cutoff, cap)[i].stage
  {
    var front, last := order[..|order| - 1], order[|order| - 1];
    var before, kept := Capped(front, rs, cutoff, cap), Kept(rs, last, cutoff, cap);
    KeptStage(rs, last, cutoff, cap);
    if i < |before| {
      a := BlockOf(front, rs, cutoff, cap, i);
    } else {
      a := |order| - 1;
      assert Capped(order, rs, cutoff, cap)[i] == kept[i - |before|] && kept[i - |before|] in kept;
    }
  }

  /** Records of one instant are stored stage by stage, the stages in the order in which they were first seen. */
  lemma TiesFollowStages(rs: seq<Record>, stored: seq<Record>, cutoff: int, cap: int, i: nat, j: nat)
    requires stored == Pruned(rs, cutoff, cap) && i < j < |stored| && stored[i].time == stored[j].time
    ensures stored[i].stage == stored[j].stage || SeenBefore(rs, cutoff, stored[i].stage, stored[j].stage)
  {
    var x, y := TiesInBlocks(StageOrder(Select(rs, Fresh(cutoff))), rs, stored, cutoff, cap, i, j);
    if x < y {
      OrderIsSeenBefore(rs, cutoff, x, y);
    }
  }

  lemma {:induction false} TiesInBlocks(
    order: seq<Option<string>>, rs: seq<Record>, stored: seq<Record>, cutoff: int, cap: int, i: nat, j: nat)
      returns (x: nat, y: nat)
    requires stored == Sort(Capped(order, rs, cutoff, cap), TimeKey)
    requires i < j < |stored| && stored[i].time == stored[j].time
    ensures x <= y < |order| && order[x] == stored[i].stage && order[y] == stored[j].stage
  {
    var c, d := TiesKeepOrder(Capped(order, rs, cutoff, cap), TimeKey, i, j);
    x, y := BlocksInOrder(order, rs, cutoff, cap, c, d);
  }

  // ---- What counts as seen before ----

  /** A parsed record is new exactly when every stored one differs from it in one of the six fields compared. */
  lemma NewExactly(stored: seq<Record>, r: Record)
    ensures NotStored(stored)(r) <==>
      forall x :: x in stored ==>
        (x.product != r.product || x.stage != r.stage || x.runId != r.runId
         || x.event != r.event || x.operation != r.operation || x.time != r.time)
  {
    if NotStored(stored)(r) {
      forall x | x in stored
        ensures x.product != r.product || x.stage != r.stage || x.runId != r.runId
             || x.event != r.event || x.operation != r.operation || x.time != r.time
      {
        assert IdentityOf(x) in Identities(stored);
      }
    }
  }

  // ---- Recorded failures ----

  /** A recorded failure is stored as long as it is young itself and no record of its stage lies in its future. */
  lemma FailureIsStored(stored: seq<Record>, failure: Record, cutoff: int, cap: nat)
    requires Young(failure, cutoff)
    requires forall x ::
      x in stored && x.stage == failure.stage && x.time.Some? ==> x.time.value <= failure.time.value
    ensures failure in Pruned(stored + [failure], cutoff, cap)
  {
    var all, mine := stored + [failure], StageFresh(stored, failure.stage, cutoff);
    StageFreshConcat(stored, [failure], failure.stage, cutoff);
    SelectAll([failure], Fresh(cutoff));
    SelectAll([failure], InStage(failure.stage));
    assert Kept(all, failure.stage, cutoff, cap) == Newest(Sort(mine + [failure], TimeKey), cap);
    LastFailureIsKept(mine, failure, stored, cutoff, cap);
    WriteKeepsEachStage(all, failure.stage, cutoff, cap);
    SelectMembers(Pruned(all, cutoff, cap), InStage(failure.stage));
  }

  lemma LastFailureIsKept(mine: seq<Record>, failure: Record, stored: seq<Record>, cutoff: int, cap: nat)
    requires failure.time.Some? && mine == StageFresh(stored, failure.stage, cutoff)
    requires forall x ::
      x in stored && x.stage == failure.stage && x.time.Some? ==> x.time.value <= failure.time.value
    ensures failure in Newest(Sort(mine + [failure], TimeKey), cap)
  {
    SelectMembers(stored, Fresh(cutoff));
    SelectMembers(Select(stored, Fresh(cutoff)), InStage(failure.stage));
    forall x | x in mine ensures TimeKey(x) <= TimeKey(failure) {
      assert InStage(failure.stage)(x) && Fresh(cutoff)(x) && x in stored;
    }
    SelectNone(mine, Above(TimeKey, TimeKey(failure)));
    var a, b := LastPlace(mine, failure, TimeKey);
    var s := Sort(mine + [failure], TimeKey);
    assert s == a + [failure] && s[|s| - 1] == failure;
    var k := NewestIsSuffix(s, cap);
    assert s[k..][|s| - 1 - k] == failure;
  }

  // ---- What a view shows ----

  /** The records of the chosen product and stage; an empty choice means any. */
  predicate Chosen(r: Record, product: string, stage: string) {
    (product == "" || r.product == product) && (stage == "" || r.stage == Some(stage))
  }

  function ChosenBy(product: string, stage: string): Record -> bool {
    (r: Record) => Chosen(r, product, stage)
  }

  /** The length of s[:limit] for a list of n. */
  function LeadingLength(n: nat, limit: int): nat {
    if limit >= 0 then (if limit <= n then limit else n) else if -limit <= n then n + limit else 0
  }

  lemma ViewSelects(stored: seq<Record>, product: string, stage: string)
    ensures (if stage != "" then
               Select(if product != "" then Select(stored, OfProduct(product)) else stored, InStage(Some(stage)))
             else if product != "" then Select(stored, OfProduct(product)) else stored)
         == Select(stored, ChosenBy(product, stage))
  {
    if product == "" && stage == "" {
      SelectAll(stored, ChosenBy(product, stage));
    } else if stage == "" {
      SameSelection(stored, OfProduct(product), ChosenBy(product, stage));
    } else if product == "" {
      SameSelection(stored, InStage(Some(stage)), ChosenBy(product, stage));
    } else {
      SelectBoth(stored, OfProduct(product), InStage(Some(stage)), ChosenBy(product, stage));
    }
  }

  /** A view is the leading part of the chosen records, stably sorted the newest first. */
  lemma ViewIs(stored: seq<Record>, product: string, stage: string, limit: int)
    ensures View(stored, product, stage, limit)
         == Leading(Sort(Select(stored, ChosenBy(product, stage)), NewestKey), limit)
  {
    ViewSelects(stored, product, stage);
  }

  lemma LeadingIsPrefix(s: seq<Record>, limit: int)
    ensures |Leading(s, limit)| == LeadingLength(|s|, limit) && Leading(s, limit) == s[..LeadingLength(|s|, limit)]
  {
  }

  /** a is at least as new as b; a record without a timestamp is the oldest. */
  predicate NoOlder(a: Record, b: Record) {
    b.time.Some? ==> a.time.Some? && a.time.value >= b.time.value
  }

  /** A view shows chosen records of the store, none more often than it is stored, as many as the limit leaves. */
  lemma ViewShowsChosen(stored: seq<Record>, product: string, stage: string, limit: int)
    ensures var shown := View(stored, product, stage, limit);
      && (forall r :: r in shown ==> r in stored && Chosen(r, product, stage))
      && multiset(shown) <= multiset(stored)
      && |shown| == LeadingLength(|Select(stored, ChosenBy(product, stage))|, limit)
  {
    var chosen, shown := Select(stored, ChosenBy(product, stage)), View(stored, product, stage, limit);
    var s := Sort(chosen, NewestKey);
    ViewIs(stored, product, stage, limit);
    LeadingIsPrefix(s, limit);
    SelectMembers(stored, ChosenBy(product, stage));
    InsertAllMembers(chosen, [], NewestKey);
    forall r ensures multiset(shown)[r] <= multiset(stored)[r] {
      ShownCopies(stored, chosen, product, stage, |shown|, r);
    }
  }

  lemma ShownCopies(stored: seq<Record>, chosen: seq<Record>, product: string, stage: string, n: nat, r: Record)
    requires chosen == Select(stored, ChosenBy(product, stage)) && n <= |chosen|
    ensures multiset(Sort(chosen, NewestKey)[..n])[r] <= multiset(stored)[r]
  {
    var s := Sort(chosen, NewestKey);
    SortCount(chosen, NewestKey);
    InPrefix(s, n, r);
    SelectCount(stored, ChosenBy(product, stage), r);
  }

  /** What the limit leaves out is nowhere newer than what a view shows. */
  lemma ViewShowsNewest(stored: seq<Record>, product: string, stage: string, limit: int, r: Record, x: Record)
    requires r in stored && Chosen(r, product, stage) && r !in View(stored, product, stage, limit)
    requires x in View(stored, product, stage, limit)
    ensures NoOlder(x, r)
  {
    var chosen := Select(stored, ChosenBy(product, stage));
    ViewIs(stored, product, stage, limit);
    LeadingIsPrefix(Sort(chosen, NewestKey), limit);
    SelectMembers(stored, ChosenBy(product, stage));
    LeftOut(chosen, r, x, LeadingLength(|chosen|, limit));
  }

  lemma LeftOut(chosen: seq<Record>, r: Record, x: Record, n: nat)
    requires n <= |chosen| && r in chosen
    requires var s := Sort(chosen, NewestKey); r !in s[..n] && x in s[..n]
    ensures NoOlder(x, r)
  {
    var s := Sort(chosen, NewestKey);
    InsertAllMembers(chosen, [], NewestKey);
    InsertAllSorted(chosen, [], NewestKey);
    var i :| 0 <= i < |s| && s[i] == r;
    var j :| 0 <= j < n && s[..n][j] == x;
    assert forall m :: 0 <= m < n ==> s[m] == s[..n][m];
    assert s[j] == x && NewestKey(s[j]) <= NewestKey(s[i]);
  }

  /** A view runs from the newest to the oldest, records of one instant in the order in which they are stored. */
  lemma ViewDescends(stored: seq<Record>, product: string, stage: string, limit: int, i: nat, j: nat)
    requires i < j < |View(stored, product, stage, limit)|
    ensures var shown := View(stored, product, stage, limit);
      && NoOlder(shown[i], shown[j])
      && (shown[i].time == shown[j].time ==>
            exists a, b :: 0 <= a < b < |stored| && stored[a] == shown[i] && stored[b] == shown[j])
  {
    var chosen, shown := Select(stored, ChosenBy(product, stage)), View(stored, product, stage, limit);
    ViewIs(stored, product, stage, limit);
    LeadingIsPrefix(Sort(chosen, NewestKey), limit);
    InsertAllSorted(chosen, [], NewestKey);
    if shown[i].time == shown[j].time {
      var c, d := TiesKeepOrder(chosen, NewestKey, i, j);
      var a, b := SelectPlaces(stored, ChosenBy(product, stage), c, d);
    }
  }
}
