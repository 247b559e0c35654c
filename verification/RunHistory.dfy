/**
 The run-history store (service/run_history.py). Every write filters by age,
 groups by stage, keeps the newest records of each stage and re-sorts. The
 main result: pruning at every write leaves, stage by stage, what one pruning
 of the whole history would leave.

 Timestamps are naturals; a missing or unparsable one is None. The cap is any
 integer, because `records[-cap:]` is defined for every integer.
 */
module RunHistory {
  import opened Wrappers
  import opened Seqs
  import opened StableSort

  datatype Record = Record(
    product: string, stage: Option<string>, runId: Option<string>, event: string,
    operation: Option<string>, time: Option<nat>, body: string)

  /** The tuple that record_from_logs compares to recognise a record already stored. */
  datatype Identity = Identity(
    product: string, stage: Option<string>, runId: Option<string>, event: string,
    operation: Option<string>, time: Option<nat>)

  function IdentityOf(r: Record): Identity {
    Identity(r.product, r.stage, r.runId, r.event, r.operation, r.time)
  }

  /** The sort key: a record without a timestamp sorts as the empty string, before all others. */
  function TimeKey(r: Record): int {
    if r.time.Some? then r.time.value else -1
  }

  function NewestKey(r: Record): int {
    -TimeKey(r)
  }

  function Fresh(cutoff: int): Record -> bool {
    (r: Record) => r.time.Some? && r.time.value >= cutoff
  }

  function InStage(stage: Option<string>): Record -> bool {
    (r: Record) => r.stage == stage
  }

  function OfProduct(product: string): Record -> bool {
    (r: Record) => r.product == product
  }

  /** The `seen` set of record_from_logs. */
  function Identities(stored: seq<Record>): set<Identity> {
    set r | r in stored :: IdentityOf(r)
  }

  function NotStored(stored: seq<Record>): Record -> bool {
    (r: Record) => IdentityOf(r) !in Identities(stored)
  }

  /** The Python slice s[-cap:]. */
  function Newest(s: seq<Record>, cap: int): seq<Record> {
    if cap > 0 then LastN(s, cap)
    else if cap == 0 then s
    else s[if -cap <= |s| then -cap else |s|..]
  }

  /** The Python slice s[:limit]. */
  function Leading(s: seq<Record>, limit: int): seq<Record> {
    if limit >= 0 then s[..if limit <= |s| then limit else |s|]
    else s[..if -limit <= |s| then |s| + limit else 0]
  }

  /** Stages in the order of their first record: the key order of the by_stage dict. */
  function StageOrder(rs: seq<Record>): seq<Option<string>> {
    if rs == [] then []
    else
      var before := StageOrder(rs[..|rs| - 1]);
      var s := rs[|rs| - 1].stage;
      if s in before then before else before + [s]
  }

  /** What one stage keeps of the records rs, given the age cutoff and the cap. */
  function Kept(rs: seq<Record>, stage: Option<string>, cutoff: int, cap: int): seq<Record> {
    Newest(Sort(Select(Select(rs, Fresh(cutoff)), InStage(stage)), TimeKey), cap)
  }

  function Capped(order: seq<Option<string>>, rs: seq<Record>, cutoff: int, cap: int): seq<Record> {
    if order == [] then []
    else Capped(order[..|order| - 1], rs, cutoff, cap) + Kept(rs, order[|order| - 1], cutoff, cap)
  }

  /** The list _write_all stores when handed rs. */
  function Pruned(rs: seq<Record>, cutoff: int, cap: int): seq<Record> {
    Sort(Capped(StageOrder(Select(rs, Fresh(cutoff))), rs, cutoff, cap), TimeKey)
  }

  function FailureRecord(product: string, stage: Option<string>, message: string, now: nat): Record {
    Record(product, stage, None, "pipeline.step.failed", Some("run_once"), Some(now), message)
  }

  /** What get_history shows: the chosen product and stage, newest first, cut to limit. */
  function View(stored: seq<Record>, product: string, stage: string, limit: int): seq<Record> {
    var a := if product != "" then Select(stored, OfProduct(product)) else stored;
    var b := if stage != "" then Select(a, InStage(Some(stage))) else a;
    Leading(Sort(b, NewestKey), limit)
  }

  /** byStage groups the records rs. */
  ghost predicate Groups(byStage: map<Option<string>, seq<Record>>, rs: seq<Record>) {
    forall s :: Select(rs, InStage(s)) == if s in byStage then byStage[s] else []
  }

  /** The by_stage dict: its key order, and each stage's records in order. */
  method GroupByStage(rs: seq<Record>) returns (order: seq<Option<string>>, byStage: map<Option<string>, seq<Record>>)
    ensures order == StageOrder(rs)
    ensures forall s :: s in order <==> s in byStage
    ensures forall s :: s in byStage ==> byStage[s] == Select(rs, InStage(s))
  {
    order, byStage := [], map[];
    for i := 0 to |rs|
      invariant order == StageOrder(rs[..i])
      invariant forall s :: s in order <==> s in byStage
      invariant Groups(byStage, rs[..i])
    {
      var s := rs[i].stage;
      GroupStep(rs, byStage, i);
      OrderStep(rs, i);
      if s !in byStage {
        order := order + [s];
        byStage := byStage[s := []];
      }
      byStage := byStage[s := byStage[s] + [rs[i]]];
    }
    assert rs[..|rs|] == rs;
  }

  lemma {:induction false} OrderStep(rs: seq<Record>, i: nat)
    requires i < |rs|
    ensures StageOrder(rs[..i + 1])
      == StageOrder(rs[..i]) + if rs[i].stage in StageOrder(rs[..i]) then [] else [rs[i].stage]
  {
    assert rs[..i + 1][..i] == rs[..i];
    assert StageOrder(rs[..i]) + [] == StageOrder(rs[..i]);
  }

  lemma {:induction false} GroupStep(rs: seq<Record>, byStage: map<Option<string>, seq<Record>>, i: nat)
    requires i < |rs| && Groups(byStage, rs[..i])
    ensures var s := rs[i].stage;
      Groups(byStage[s := (if s in byStage then byStage[s] else []) + [rs[i]]], rs[..i + 1])
  {
    var r := rs[i].stage;
    var grown := byStage[r := (if r in byStage then byStage[r] else []) + [rs[i]]];
    assert rs[..i + 1] == rs[..i] + [rs[i]];
    forall s ensures Select(rs[..i + 1], InStage(s)) == if s in grown then grown[s] else [] {
      SelectAppend(rs[..i], rs[i], InStage(s));
      assert Select(rs[..i], InStage(s)) == if s in byStage then byStage[s] else [];
    }
  }

  function CapAll(order: seq<Option<string>>, byStage: map<Option<string>, seq<Record>>, cap: int): seq<Record>
    requires forall s :: s in order ==> s in byStage
  {
    if order == [] then []
    else CapAll(order[..|order| - 1], byStage, cap) + Newest(Sort(byStage[order[|order| - 1]], TimeKey), cap)
  }

  method CapStages(
    order: seq<Option<string>>, byStage: map<Option<string>, seq<Record>>, cap: int) returns (capped: seq<Record>)
    requires forall s :: s in order ==> s in byStage
    ensures capped == CapAll(order, byStage, cap)
  {
    capped := [];
    for i := 0 to |order|
      invariant capped == CapAll(order[..i], byStage, cap)
    {
      assert order[..i + 1][..i] == order[..i];
      capped := capped + Newest(Sort(byStage[order[i]], TimeKey), cap);
    }
    assert order[..|order|] == order;
  }

  lemma {:induction false} CappedIsCapStages(
    order: seq<Option<string>>, byStage: map<Option<string>, seq<Record>>, rs: seq<Record>, cutoff: int, cap: int)
    requires forall s :: s in order ==> s in byStage && byStage[s] == Select(Select(rs, Fresh(cutoff)), InStage(s))
    ensures CapAll(order, byStage, cap) == Capped(order, rs, cutoff, cap)
  {
    if order != [] {
      CappedIsCapStages(order[..|order| - 1], byStage, rs, cutoff, cap);
      assert order[|order| - 1] in order;
    }
  }

  class Store {
    var stored: seq<Record>
    const maxAge: int
    const maxRecords: int

    constructor (maxAge: int, maxRecords: int)
      ensures stored == [] && this.maxAge == maxAge && this.maxRecords == maxRecords
    {
      stored := [];
      this.maxAge := maxAge;
      this.maxRecords := maxRecords;
    }

    method WriteAll(records: seq<Record>, now: nat)
      modifies this
      ensures stored == Pruned(records, now - maxAge, maxRecords)
      ensures forall r :: r in stored ==> r in records && r.time.Some? && r.time.value >= now - maxAge
    {
      var cutoff := now - maxAge;
      var alive := Select(records, Fresh(cutoff));
      var order, byStage := GroupByStage(alive);
      var capped := CapStages(order, byStage, maxRecords);
      CappedIsCapStages(order, byStage, records, cutoff, maxRecords);
      StoredIsYoung(records, cutoff, maxRecords);
      stored := Sort(capped, TimeKey);
    }

    method RecordFromLogs(parsed: seq<Record>, now: nat) returns (added: nat)
      modifies this
      ensures var unseen := Select(parsed, NotStored(old(stored)));
        && added == |unseen|
        && stored == if unseen == [] then old(stored)
                     else Pruned(old(stored) + unseen, now - maxAge, maxRecords)
    {
      if parsed == [] {
        return 0;
      }
      var unseen := Select(parsed, NotStored(stored));
      if unseen != [] {
        WriteAll(stored + unseen, now);
      }
      added := |unseen|;
    }

    method RecordFailure(product: string, stage: Option<string>, message: string, now: nat)
      modifies this
      ensures var failure := Record(product, stage, None, "pipeline.step.failed", Some("run_once"), Some(now), message);
        stored == Pruned(old(stored) + [failure], now - maxAge, maxRecords)
    {
      WriteAll(stored + [FailureRecord(product, stage, message, now)], now);
    }

    method GetHistory(product: string, stage: string, limit: int) returns (shown: seq<Record>)
      ensures shown == View(stored, product, stage, limit)
    {
      var records := stored;
      if product != "" {
        records := Select(records, OfProduct(product));
      }
      if stage != "" {
        records := Select(records, InStage(Some(stage)));
      }
      shown := Leading(Sort(records, NewestKey), limit);
    }
  }

  // ---- One write, seen stage by stage ----

  lemma {:induction false} StageOrderMembers(rs: seq<Record>)
    ensures forall s :: s in StageOrder(rs) <==> exists i :: 0 <= i < |rs| && rs[i].stage == s
    ensures NoDup(StageOrder(rs))
  {
    if rs != [] {
      StageOrderMembers(rs[..|rs| - 1]);
    }
  }

  lemma NewestMembers(s: seq<Record>, cap: int)
    ensures forall r :: r in Newest(s, cap) ==> r in s
  {
  }

  lemma KeptStage(rs: seq<Record>, stage: Option<string>, cutoff: int, cap: int)
    ensures forall r :: r in Kept(rs, stage, cutoff, cap) ==> r in rs && Fresh(cutoff)(r) && r.stage == stage
  {
    SelectMembers(rs, Fresh(cutoff));
    SelectMembers(Select(rs, Fresh(cutoff)), InStage(stage));
    InsertAllMembers(Select(Select(rs, Fresh(cutoff)), InStage(stage)), [], TimeKey);
    NewestMembers(Sort(Select(Select(rs, Fresh(cutoff)), InStage(stage)), TimeKey), cap);
  }

  lemma NewestSorted(s: seq<Record>, cap: int)
    requires Sorted(s, TimeKey)
    ensures Sorted(Newest(s, cap), TimeKey)
  {
    var kept := Newest(s, cap);
    assert forall i :: 0 <= i < |kept| ==> kept[i] == s[|s| - |kept| + i];
  }

  lemma KeptSorted(rs: seq<Record>, stage: Option<string>, cutoff: int, cap: int)
    ensures Sorted(Kept(rs, stage, cutoff, cap), TimeKey)
  {
    var mine := Select(Select(rs, Fresh(cutoff)), InStage(stage));
    InsertAllSorted(mine, [], TimeKey);
    NewestSorted(Sort(mine, TimeKey), cap);
  }

  lemma KeptInStage(rs: seq<Record>, kept: Option<string>, stage: Option<string>, cutoff: int, cap: int)
    ensures Select(Kept(rs, kept, cutoff, cap), InStage(stage))
         == if stage == kept then Kept(rs, kept, cutoff, cap) else []
  {
    KeptStage(rs, kept, cutoff, cap);
    if stage == kept {
      SelectAll(Kept(rs, kept, cutoff, cap), InStage(stage));
    } else {
      SelectNone(Kept(rs, kept, cutoff, cap), InStage(stage));
    }
  }

  lemma LastIsNew(order: seq<Option<string>>)
    requires NoDup(order) && order != []
    ensures NoDup(order[..|order| - 1]) && order[|order| - 1] !in order[..|order| - 1]
    ensures forall s :: s in order <==> s in order[..|order| - 1] || s == order[|order| - 1]
  {
    assert order == order[..|order| - 1] + [order[|order| - 1]];
  }

  lemma {:induction false} CappedStage(
    order: seq<Option<string>>, rs: seq<Record>, stage: Option<string>, cutoff: int, cap: int)
    requires NoDup(order)
    ensures Select(Capped(order, rs, cutoff, cap), InStage(stage))
         == if stage in order then Kept(rs, stage, cutoff, cap) else []
  {
    if order != [] {
      var front, last := order[..|order| - 1], order[|order| - 1];
      var before, kept := Capped(front, rs, cutoff, cap), Kept(rs, last, cutoff, cap);
      LastIsNew(order);
      CappedStage(front, rs, stage, cutoff, cap);
      SelectConcat(before, kept, InStage(stage));
      KeptInStage(rs, last, stage, cutoff, cap);
      if stage == last {
        assert Select(before, InStage(stage)) == [] && [] + kept == kept;
      } else {
        assert Select(kept, InStage(stage)) == [];
        assert Select(before, InStage(stage)) + [] == Select(before, InStage(stage));
      }
    }
  }

  /** After a write, each stage holds the newest of its own fresh records, whatever other stages hold. */
  lemma WriteKeepsEachStage(rs: seq<Record>, stage: Option<string>, cutoff: int, cap: int)
    ensures Select(Pruned(rs, cutoff, cap), InStage(stage)) == Kept(rs, stage, cutoff, cap)
  {
    var alive := Select(rs, Fresh(cutoff));
    StageOrderMembers(alive);
    SelectSort(Capped(StageOrder(alive), rs, cutoff, cap), TimeKey, InStage(stage));
    CappedStage(StageOrder(alive), rs, stage, cutoff, cap);
    KeptSorted(rs, stage, cutoff, cap);
    if stage in StageOrder(alive) {
      SortSortedIsSame(Kept(rs, stage, cutoff, cap), TimeKey);
    } else {
      assert forall r :: r in alive ==> r.stage != stage;
      SelectNone(alive, InStage(stage));
    }
  }

  /** Whatever a write stores was handed to it and has a timestamp no older than the cutoff. */
  lemma StoredIsYoung(rs: seq<Record>, cutoff: int, cap: int)
    ensures forall r :: r in Pruned(rs, cutoff, cap) ==> r in rs && r.time.Some? && r.time.value >= cutoff
  {
    forall r | r in Pruned(rs, cutoff, cap) ensures r in rs && r.time.Some? && r.time.value >= cutoff {
      WriteKeepsEachStage(rs, r.stage, cutoff, cap);
      SelectMembers(Pruned(rs, cutoff, cap), InStage(r.stage));
      KeptStage(rs, r.stage, cutoff, cap);
    }
  }

  // ---- Many writes ----

  /** When an early part of a sorted list has a fresh record, everything later is fresh. */
  lemma FreshStays(s: seq<Record>, cut: nat, cutoff: int)
    requires Sorted(s, TimeKey) && cut <= |s|
    requires forall r :: r in s ==> r.time.Some?
    ensures Select(s[..cut], Fresh(cutoff)) == [] || Select(s[cut..], Fresh(cutoff)) == s[cut..]
  {
    SelectMembers(s[..cut], Fresh(cutoff));
    var a := Select(s[..cut], Fresh(cutoff));
    if a != [] {
      assert a[0] in a;
      var i :| 0 <= i < cut && s[i] == a[0];
      forall r | r in s[cut..] ensures Fresh(cutoff)(r) {
        var j :| 0 <= j < |s[cut..]| && s[cut..][j] == r;
        assert TimeKey(s[i]) <= TimeKey(s[cut + j]);
      }
      SelectAll(s[cut..], Fresh(cutoff));
    }
  }

  /** On a sorted list the age cut and the cap can be taken in either order. */
  lemma AgeThenCap(s: seq<Record>, cutoff: int, cap: int)
    requires Sorted(s, TimeKey) && cap >= 0
    requires forall r :: r in s ==> r.time.Some?
    ensures Select(Newest(s, cap), Fresh(cutoff)) == Newest(Select(s, Fresh(cutoff)), cap)
  {
    if cap > 0 && |s| > cap {
      var cut := |s| - cap;
      assert s == s[..cut] + s[cut..];
      SelectConcat(s[..cut], s[cut..], Fresh(cutoff));
      FreshStays(s, cut, cutoff);
    }
  }

  function StageFresh(rs: seq<Record>, stage: Option<string>, cutoff: int): seq<Record> {
    Select(Select(rs, Fresh(cutoff)), InStage(stage))
  }

  lemma StageFreshConcat(a: seq<Record>, b: seq<Record>, stage: Option<string>, cutoff: int)
    ensures StageFresh(a + b, stage, cutoff) == StageFresh(a, stage, cutoff) + StageFresh(b, stage, cutoff)
  {
    SelectConcat(a, b, Fresh(cutoff));
    SelectConcat(Select(a, Fresh(cutoff)), Select(b, Fresh(cutoff)), InStage(stage));
  }

  /** Re-filtering a stage's kept records at a later cutoff equals keeping from all its history. */
  lemma KeptAges(rs: seq<Record>, stage: Option<string>, c1: int, c2: int, cap: int)
    requires cap >= 0 && c1 <= c2
    ensures StageFresh(Kept(rs, stage, c1, cap), stage, c2) == Newest(Sort(StageFresh(rs, stage, c2), TimeKey), cap)
  {
    var f1 := StageFresh(rs, stage, c1);
    var s := Sort(f1, TimeKey);
    var kept := Newest(s, cap);
    KeptStage(rs, stage, c1, cap);
    SelectMembers(rs, Fresh(c1));
    SelectMembers(Select(rs, Fresh(c1)), InStage(stage));
    InsertAllMembers(f1, [], TimeKey);
    InsertAllSorted(f1, [], TimeKey);
    SelectMembers(kept, Fresh(c2));
    SelectAll(Select(kept, Fresh(c2)), InStage(stage));
    AgeThenCap(s, c2, cap);
    SelectSort(f1, TimeKey, Fresh(c2));
    SelectCommutes(Select(rs, Fresh(c1)), InStage(stage), Fresh(c2));
    SelectTwice(rs, Fresh(c1), Fresh(c2));
  }

  /** One more write on an already pruned store equals one pruning of everything. */
  lemma KeptAfterKept(
    store: seq<Record>, all: seq<Record>, batch: seq<Record>, stage: Option<string>, c1: int, c2: int, cap: int)
    requires cap >= 0 && c1 <= c2
    requires Select(store, InStage(stage)) == Kept(all, stage, c1, cap)
    ensures Kept(store + batch, stage, c2, cap) == Kept(all + batch, stage, c2, cap)
  {
    var b := StageFresh(batch, stage, c2);
    var h := StageFresh(all, stage, c2);
    StageFreshConcat(store, batch, stage, c2);
    StageFreshConcat(all, batch, stage, c2);
    SelectCommutes(store, Fresh(c2), InStage(stage));
    KeptStage(all, stage, c1, cap);
    SelectAll(Kept(all, stage, c1, cap), InStage(stage));
    SelectCommutes(Kept(all, stage, c1, cap), Fresh(c2), InStage(stage));
    KeptAges(all, stage, c1, c2, cap);
    InsertAllSorted(h, [], TimeKey);
    if cap > 0 {
      LastNThenMerge(Sort(h, TimeKey), b, cap, TimeKey);
    }
    SortOfSorted(h, b, TimeKey);
  }

  /** One call that reached _write_all: the clock it saw and the records it appended. */
  datatype Write = Write(now: nat, batch: seq<Record>)

  /** The oldest time that a write keeps. */
  function Cutoff(w: Write, age: int): int {
    w.now - age
  }

  function StoreAfter(ws: seq<Write>, age: int, cap: int): seq<Record> {
    if ws == [] then []
    else
      var w := ws[|ws| - 1];
      Pruned(StoreAfter(ws[..|ws| - 1], age, cap) + w.batch, Cutoff(w, age), cap)
  }

  function Appended(ws: seq<Write>): seq<Record> {
    if ws == [] then [] else Appended(ws[..|ws| - 1]) + ws[|ws| - 1].batch
  }

  ghost predicate ClockMonotone(ws: seq<Write>) {
    forall i, j :: 0 <= i < j < |ws| ==> ws[i].now <= ws[j].now
  }

  /** The stage holds exactly what one pruning of the whole history, at the last write's time, would keep. */
  ghost predicate AsIfPrunedOnce(ws: seq<Write>, stage: Option<string>, age: int, cap: int)
    requires ws != []
  {
    Select(StoreAfter(ws, age, cap), InStage(stage)) == Kept(Appended(ws), stage, Cutoff(ws[|ws| - 1], age), cap)
  }

  /** Pruning at every write equals pruning the whole history once, stage by stage. */
  lemma {:induction false} PruneAsYouGo(ws: seq<Write>, stage: Option<string>, age: int, cap: int)
    requires ws != [] && ClockMonotone(ws) && cap >= 0
    ensures AsIfPrunedOnce(ws, stage, age, cap)
  {
    var front, w := ws[..|ws| - 1], ws[|ws| - 1];
    var cutoff := Cutoff(w, age);
    var before := StoreAfter(front, age, cap);
    WriteKeepsEachStage(before + w.batch, stage, cutoff, cap);
    if front != [] {
      PruneAsYouGo(front, stage, age, cap);
      KeptAfterKept(before, Appended(front), w.batch, stage, Cutoff(front[|front| - 1], age), cutoff, cap);
    }
  }

  lemma ViewIsNewestFirst(stored: seq<Record>, product: string, stage: string, limit: int)
    ensures Sorted(View(stored, product, stage, limit), NewestKey)
  {
    var a := if product != "" then Select(stored, OfProduct(product)) else stored;
    var b := if stage != "" then Select(a, InStage(Some(stage))) else a;
    InsertAllSorted(b, [], NewestKey);
    LeadingSorted(Sort(b, NewestKey), limit);
  }

  lemma LeadingSorted(s: seq<Record>, limit: int)
    requires Sorted(s, NewestKey)
    ensures Sorted(Leading(s, limit), NewestKey)
  {
  }

  /**
   After any run, get_history for a stage is the newest-first view of what the whole history keeps, of one
   product if asked.
   */
  lemma HistoryShowsKept(ws: seq<Write>, product: string, stage: string, limit: int, age: int, cap: int)
    requires ws != [] && ClockMonotone(ws) && cap >= 0 && stage != ""
    ensures var shown := View(StoreAfter(ws, age, cap), product, stage, limit);
      var kept := Kept(Appended(ws), Some(stage), Cutoff(ws[|ws| - 1], age), cap);
      && Sorted(shown, NewestKey)
      && shown == Leading(Sort(if product != "" then Select(kept, OfProduct(product)) else kept, NewestKey), limit)
  {
    PruneAsYouGo(ws, Some(stage), age, cap);
    ViewIsNewestFirst(StoreAfter(ws, age, cap), product, stage, limit);
    SelectCommutes(StoreAfter(ws, age, cap), OfProduct(product), InStage(Some(stage)));
  }

  function Repeat<T>(x: T, n: nat): (r: seq<T>)
    ensures |r| == n && forall i :: 0 <= i < n ==> r[i] == x
  {
    if n == 0 then [] else Repeat(x, n - 1) + [x]
  }

  lemma NegativeCapSlice(s: seq<Record>, cap: int)
    requires cap < 0
    ensures |Newest(s, cap)| == if |s| + cap > 0 then |s| + cap else 0
  {
  }

  lemma SingleVanishes(a: Record, cutoff: int, cap: int)
    requires cap < 0 && Fresh(cutoff)(a)
    ensures Pruned([a], cutoff, cap) == []
  {
    SelectAll([a], Fresh(cutoff));
    SelectAll([a], InStage(a.stage));
    assert [a][..0] == [] && [a.stage][..0] == [];
    assert StageOrder([a]) == [a.stage];
    assert |Select([a], InStage(a.stage))| == 1;
    NegativeCapSlice(Sort([a], TimeKey), cap);
    assert Kept([a], a.stage, cutoff, cap) == [];
    assert Capped([a.stage], [a], cutoff, cap) == [] + [];
  }

  lemma StoreSnoc(ws: seq<Write>, w: Write, age: int, cap: int)
    ensures StoreAfter(ws + [w], age, cap) == Pruned(StoreAfter(ws, age, cap) + w.batch, Cutoff(w, age), cap)
    ensures Appended(ws + [w]) == Appended(ws) + w.batch
  {
    assert (ws + [w])[..|ws|] == ws;
  }

  lemma {:induction false} OneMoreVanishes(ws: seq<Write>, a: Record, age: nat, cap: int)
    requires cap < 0 && a.time == Some(0) && StoreAfter(ws, age, cap) == []
    ensures StoreAfter(ws + [Write(0, [a])], age, cap) == []
  {
    StoreSnoc(ws, Write(0, [a]), age, cap);
    assert [] + [a] == [a];
    SingleVanishes(a, Cutoff(Write(0, [a]), age), cap);
  }

  /** Under a negative cap a stage that gets one record at a time never keeps any. */
  lemma {:induction false} SinglesVanish(a: Record, n: nat, age: nat, cap: int)
    requires cap < 0 && a.time == Some(0)
    ensures StoreAfter(Repeat(Write(0, [a]), n), age, cap) == []
  {
    if n > 0 {
      SinglesVanish(a, n - 1, age, cap);
      OneMoreVanishes(Repeat(Write(0, [a]), n - 1), a, age, cap);
    }
  }

  lemma {:induction false} SinglesAppended(a: Record, n: nat)
    ensures Appended(Repeat(Write(0, [a]), n)) == Repeat(a, n)
  {
    if n > 0 {
      var ws := Repeat(Write(0, [a]), n - 1);
      SinglesAppended(a, n - 1);
      assert (ws + [Write(0, [a])])[..n - 1] == ws;
    }
  }

  lemma RepeatsKept(all: seq<Record>, a: Record, cutoff: int, cap: int)
    requires cap < 0 && |all| == 1 - cap && Fresh(cutoff)(a)
    requires forall r :: r in all ==> r == a
    ensures |Kept(all, a.stage, cutoff, cap)| == 1
  {
    SelectAll(all, Fresh(cutoff));
    SelectAll(all, InStage(a.stage));
    NegativeCapSlice(Sort(all, TimeKey), cap);
  }

  lemma {:induction false} NegativeCapLoses(ws: seq<Write>, all: seq<Record>, age: nat, cap: int, a: Record)
    requires cap < 0 && a.time == Some(0)
    requires ws != [] && ws[|ws| - 1].now == 0
    requires StoreAfter(ws, age, cap) == [] && Appended(ws) == all
    requires |all| == 1 - cap && forall r :: r in all ==> r == a
    ensures !AsIfPrunedOnce(ws, a.stage, age, cap)
  {
    RepeatsKept(all, a, Cutoff(ws[|ws| - 1], age), cap);
    assert Kept(all, a.stage, Cutoff(ws[|ws| - 1], age), cap) != [];
    assert Select(StoreAfter(ws, age, cap), InStage(a.stage)) == [];
  }

  /** Pruning as you go is exact for every history if and only if the cap is not negative. */
  lemma PruneAsYouGoExactly(age: nat, cap: int)
    ensures cap >= 0 <==>
      forall ws: seq<Write>, stage | ws != [] && ClockMonotone(ws) :: AsIfPrunedOnce(ws, stage, age, cap)
  {
    if cap >= 0 {
      forall ws: seq<Write>, stage | ws != [] && ClockMonotone(ws) ensures AsIfPrunedOnce(ws, stage, age, cap) {
        PruneAsYouGo(ws, stage, age, cap);
      }
    } else {
      var a := Record("p", Some("adaptor"), None, "e", None, Some(0), "");
      var ws, all := Repeat(Write(0, [a]), 1 - cap), Repeat(a, 1 - cap);
      SinglesVanish(a, 1 - cap, age, cap);
      SinglesAppended(a, 1 - cap);
      NegativeCapLoses(ws, all, age, cap, a);
    }
  }
}
