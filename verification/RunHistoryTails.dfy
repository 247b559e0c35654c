/**
 Repeated ingestion of overlapping log tails (ui/app.py's _refresh_history over
 record_from_logs). Every page load re-reads the last lines of every log, so
 records are offered again and again, also after retention evicted them. Unless
 an evicted record ties with the oldest record its stage keeps, the store still
 ends as if each record had been ingested exactly once.
 */
module RunHistoryTails {
  import opened Wrappers
  import opened Seqs
  import opened StableSort
  import opened RunHistory

  predicate Confused(a: Record, b: Record) {
    IdentityOf(a) == IdentityOf(b) && a != b
  }

  /** The identity tuple tells the record. */
  ghost predicate IdentityTells(rs: seq<Record>) {
    forall a, b {:trigger Confused(a, b)} :: a in rs && b in rs ==> !Confused(a, b)
  }

  /**
   No fresh record of the stage that the batch offers again after h's stage evicted it has the
   time of the oldest record the stage keeps once the batch's new records are in.
   */
  ghost predicate NoTieAcross(h: seq<Record>, batch: seq<Record>, stage: Option<string>, cutoff: int, cap: int) {
    var kept := Kept(h + Select(batch, NotIn(h)), stage, cutoff, cap);
    forall e :: e in batch && e in h && IsEvicted(h, stage, cutoff, cap, e) ==>
      kept != [] && TimeKey(e) != TimeKey(kept[0])
  }

  predicate IsEvicted(h: seq<Record>, stage: Option<string>, cutoff: int, cap: int, e: Record) {
    e.stage == stage && Fresh(cutoff)(e) && e !in Kept(h, stage, cutoff, cap)
  }

  ghost predicate Within(rs: seq<Record>, all: seq<Record>) {
    forall r :: r in rs ==> r in all
  }

  /** The records of rs, each at its first occurrence. */
  function Once(rs: seq<Record>): seq<Record> {
    if rs == [] then []
    else
      var before := Once(rs[..|rs| - 1]);
      if rs[|rs| - 1] in before then before else before + [rs[|rs| - 1]]
  }

  lemma {:induction false} OnceMembers(rs: seq<Record>)
    ensures forall r :: r in Once(rs) <==> r in rs
  {
    if rs != [] {
      OnceMembers(rs[..|rs| - 1]);
      assert rs == rs[..|rs| - 1] + [rs[|rs| - 1]];
    }
  }

  /** Stored records and the age cutoff of the last write, if there was one. */
  datatype Log = Log(stored: seq<Record>, cutoff: Option<int>)

  /** record_from_logs: nothing is written when the window holds nothing new. */
  function Ingest(l: Log, w: Write, age: int, cap: int): Log {
    var unseen := Select(w.batch, NotStored(l.stored));
    if unseen == [] then l else Log(Pruned(l.stored + unseen, Cutoff(w, age), cap), Some(Cutoff(w, age)))
  }

  function IngestAll(ws: seq<Write>, age: int, cap: int): Log {
    if ws == [] then Log([], None) else Ingest(IngestAll(ws[..|ws| - 1], age, cap), ws[|ws| - 1], age, cap)
  }

  /** The class method and this model take the same step. */
  method IngestStep(store: Store, w: Write, ghost l: Log) returns (added: nat)
    requires l.stored == store.stored
    modifies store
    ensures store.stored == Ingest(l, w, store.maxAge, store.maxRecords).stored
  {
    ghost var age := store.maxAge;
    added := store.RecordFromLogs(w.batch, w.now);
    assert w.now - age == Cutoff(w, age);
  }

  /**
   A failure written between windows is the window of that one record, as long as its identity is new to
   the store.
   */
  method FailureStep(store: Store, product: string, stage: Option<string>, message: string, now: nat, ghost l: Log)
    requires l.stored == store.stored
    modifies store
    ensures var failure := FailureRecord(product, stage, message, now);
      NotStored(l.stored)(failure) ==>
        store.stored == Ingest(l, Write(now, [failure]), store.maxAge, store.maxRecords).stored
  {
    SelectsNew(FailureRecord(product, stage, message, now), l.stored);
    store.RecordFailure(product, stage, message, now);
  }

  lemma SelectsNew(r: Record, stored: seq<Record>)
    ensures NotStored(stored)(r) ==> Select([r], NotStored(stored)) == [r]
  {
    assert [r][1..] == [];
  }

  function NotIn(h: seq<Record>): Record -> bool {
    (r: Record) => r !in h
  }

  lemma StageFreshMembers(rs: seq<Record>, stage: Option<string>, cutoff: int)
    ensures forall r :: r in StageFresh(rs, stage, cutoff) <==> r in rs && r.stage == stage && Fresh(cutoff)(r)
  {
    SelectMembers(rs, Fresh(cutoff));
    SelectMembers(Select(rs, Fresh(cutoff)), InStage(stage));
  }

  // ---- Evicted records ----

  /** A fresh record of the stage that is not kept lies below a full cap of kept ones. */
  lemma EvictedBelow(h: seq<Record>, stage: Option<string>, cutoff: int, cap: nat, e: Record)
    requires e in h && IsEvicted(h, stage, cutoff, cap, e)
    ensures cap > 0 && |Kept(h, stage, cutoff, cap)| == cap
    ensures TimeKey(e) <= TimeKey(Kept(h, stage, cutoff, cap)[0])
    ensures |Select(StageFresh(h, stage, cutoff), AtLeast(TimeKey, TimeKey(Kept(h, stage, cutoff, cap)[0])))| >= cap
  {
    var mine := StageFresh(h, stage, cutoff);
    var s := Sort(mine, TimeKey);
    StageFreshMembers(h, stage, cutoff);
    InsertAllMembers(mine, [], TimeKey);
    InsertAllSorted(mine, [], TimeKey);
    assert e in s;
    NotLastIsBelow(s, cap, e);
    TopAtCut(mine, cap, TimeKey(Kept(h, stage, cutoff, cap)[0]));
  }

  lemma NotLastIsBelow(s: seq<Record>, cap: nat, e: Record)
    requires Sorted(s, TimeKey) && e in s && e !in Newest(s, cap)
    ensures 0 < cap < |s| && TimeKey(e) <= TimeKey(s[|s| - cap])
  {
    var i :| 0 <= i < |s| && s[i] == e;
    assert 0 < cap < |s|;
    assert forall j :: |s| - cap <= j < |s| ==> s[j] == Newest(s, cap)[j - (|s| - cap)];
  }

  /** What a later cutoff keeps was kept before, and what was kept before and is still fresh stays kept. */
  lemma KeptLater(h: seq<Record>, stage: Option<string>, c1: int, c2: int, cap: nat, r: Record)
    requires c1 <= c2
    ensures r in Kept(h, stage, c2, cap) <==> r in Kept(h, stage, c1, cap) && Fresh(c2)(r)
  {
    KeptAges(h, stage, c1, c2, cap);
    KeptStage(h, stage, c1, cap);
    KeptStage(h, stage, c2, cap);
    StageFreshMembers(Kept(h, stage, c1, cap), stage, c2);
  }

  /** The unseen records, told apart by whether h has them already. */
  lemma NewStageFresh(h: seq<Record>, unseen: seq<Record>, stage: Option<string>, cutoff: int)
    ensures StageFresh(Select(unseen, NotIn(h)), stage, cutoff) == Select(StageFresh(unseen, stage, cutoff), NotIn(h))
  {
    SelectCommutes(unseen, NotIn(h), Fresh(cutoff));
    SelectCommutes(Select(unseen, Fresh(cutoff)), NotIn(h), InStage(stage));
  }

  /** Offered again below the cut, evicted records change nothing of what the stage keeps. */
  lemma BelowAddsNothing(mine: seq<Record>, unseen: seq<Record>, h: seq<Record>, cap: nat, k: int)
    requires forall r :: r in unseen && r in h ==> TimeKey(r) < k
    requires |Select(mine + Select(unseen, NotIn(h)), AtLeast(TimeKey, k))| >= cap
    ensures LastN(Sort(mine + unseen, TimeKey), cap) == LastN(Sort(mine + Select(unseen, NotIn(h)), TimeKey), cap)
  {
    SelectConcat(mine, unseen, AtLeast(TimeKey, k));
    SelectConcat(mine, Select(unseen, NotIn(h)), AtLeast(TimeKey, k));
    SelectTwice(unseen, NotIn(h), AtLeast(TimeKey, k));
    SameTop(mine + unseen, mine + Select(unseen, NotIn(h)), cap, k, TimeKey);
  }

  lemma TopAtCut(all: seq<Record>, cap: nat, cut: int)
    requires 0 < cap <= |all| && cut == TimeKey(Sort(all, TimeKey)[|all| - cap])
    ensures |Select(all, AtLeast(TimeKey, cut))| >= cap
  {
    InsertAllSorted(all, [], TimeKey);
    CutHasTop(Sort(all, TimeKey), cap, cut, TimeKey);
    SelectSort(all, TimeKey, AtLeast(TimeKey, cut));
  }

  /** A record evicted from h lies no higher than where the cut stands with more records. */
  lemma EvictedBelowLater(h: seq<Record>, more: seq<Record>, stage: Option<string>, cutoff: int, cap: nat, e: Record)
    requires e in h && IsEvicted(h, stage, cutoff, cap, e)
    ensures cap > 0 && |Kept(h, stage, cutoff, cap)| == |Kept(h + more, stage, cutoff, cap)| == cap
    ensures TimeKey(e) <= TimeKey(Kept(h, stage, cutoff, cap)[0]) <= TimeKey(Kept(h + more, stage, cutoff, cap)[0])
    ensures var kept := Kept(h + more, stage, cutoff, cap);
      |Select(StageFresh(h + more, stage, cutoff), AtLeast(TimeKey, TimeKey(kept[0])))| >= cap
  {
    EvictedBelow(h, stage, cutoff, cap, e);
    var k, all := TimeKey(Kept(h, stage, cutoff, cap)[0]), StageFresh(h + more, stage, cutoff);
    StageFreshConcat(h, more, stage, cutoff);
    SelectConcat(StageFresh(h, stage, cutoff), StageFresh(more, stage, cutoff), AtLeast(TimeKey, k));
    CutReaches(all, cap, k, TimeKey);
    TopAtCut(all, cap, TimeKey(Kept(h + more, stage, cutoff, cap)[0]));
  }

  /**
   A write of a batch's unseen records keeps what a write of its first-seen ones would, unless
   a re-offered one ties with the oldest record then kept.
   */
  lemma UnseenWriteConverges(
    stored: seq<Record>, h: seq<Record>, batch: seq<Record>, stage: Option<string>, c1: int, c2: int, cap: nat)
    requires c1 <= c2 && Select(stored, InStage(stage)) == Kept(h, stage, c1, cap) && Within(stored, h)
    requires NoTieAcross(h, batch, stage, c2, cap)
    ensures Kept(stored + Select(batch, NotIn(stored)), stage, c2, cap)
         == Kept(h + Select(batch, NotIn(h)), stage, c2, cap)
  {
    var unseen, added := Select(batch, NotIn(stored)), Select(batch, NotIn(h));
    var mine, theirs := StageFresh(h, stage, c2), StageFresh(unseen, stage, c2);
    KeptAfterKept(stored, h, unseen, stage, c1, c2, cap);
    NewAmongUnseen(batch, stored, h);
    StageFreshConcat(h, unseen, stage, c2);
    StageFreshConcat(h, added, stage, c2);
    NewStageFresh(h, unseen, stage, c2);
    StageFreshMembers(unseen, stage, c2);
    SelectMembers(batch, NotIn(stored));
    if e :| e in theirs && e in h {
      ReofferedBelow(stored, h, batch, stage, c1, c2, cap, e);
      var kept := Kept(h + added, stage, c2, cap);
      forall r | r in theirs && r in h ensures TimeKey(r) < TimeKey(kept[0]) {
        ReofferedBelow(stored, h, batch, stage, c1, c2, cap, r);
      }
      BelowAddsNothing(mine, theirs, h, cap, TimeKey(kept[0]));
    } else {
      SelectAll(theirs, NotIn(h));
    }
  }

  /** Without a tie, a re-offered record of the stage lies below the cut. */
  lemma ReofferedBelow(
    stored: seq<Record>, h: seq<Record>, batch: seq<Record>, stage: Option<string>,
    c1: int, c2: int, cap: nat, r: Record)
    requires c1 <= c2 && Select(stored, InStage(stage)) == Kept(h, stage, c1, cap)
    requires NoTieAcross(h, batch, stage, c2, cap)
    requires r in batch && r in h && r !in stored && r.stage == stage && Fresh(c2)(r)
    ensures var kept := Kept(h + Select(batch, NotIn(h)), stage, c2, cap);
      && |kept| == cap > 0 && TimeKey(r) < TimeKey(kept[0])
      && |Select(StageFresh(h + Select(batch, NotIn(h)), stage, c2), AtLeast(TimeKey, TimeKey(kept[0])))| >= cap
  {
    UnstoredIsEvicted(stored, h, stage, c1, c2, cap, r);
    assert IsEvicted(h, stage, c2, cap, r);
    EvictedBelowLater(h, Select(batch, NotIn(h)), stage, c2, cap, r);
  }

  lemma UnstoredIsEvicted(
    stored: seq<Record>, h: seq<Record>, stage: Option<string>, c1: int, c2: int, cap: nat, r: Record)
    requires c1 <= c2 && Select(stored, InStage(stage)) == Kept(h, stage, c1, cap)
    requires r !in stored
    ensures r !in Kept(h, stage, c2, cap)
  {
    KeptLater(h, stage, c1, c2, cap, r);
    SelectMembers(stored, InStage(stage));
  }

  // ---- Convergence ----

  lemma {:induction false} OnceConcat(h: seq<Record>, w: seq<Record>)
    requires NoDup(w)
    ensures Once(h + w) == Once(h) + Select(w, NotIn(Once(h)))
  {
    if w == [] {
      assert h + w == h;
      assert Once(h) + [] == Once(h);
    } else {
      var front, e := w[..|w| - 1], w[|w| - 1];
      OnceConcat(h, front);
      assert (h + w)[..|h + w| - 1] == h + front;
      assert w == front + [e] && e !in front;
      AddedOnce(Once(h), front, e);
    }
  }

  lemma AddedOnce(known: seq<Record>, front: seq<Record>, e: Record)
    requires e !in front
    ensures var before := known + Select(front, NotIn(known));
      known + Select(front + [e], NotIn(known)) == if e in before then before else before + [e]
  {
    SelectAppend(front, e, NotIn(known));
    SelectMembers(front, NotIn(known));
  }

  /** Where the identity tells the record, the identity comparison is plain membership. */
  lemma UnseenIsNotStored(w: seq<Record>, stored: seq<Record>)
    requires IdentityTells(stored + w)
    ensures Select(w, NotStored(stored)) == Select(w, NotIn(stored))
  {
    forall r | r in w ensures NotStored(stored)(r) == NotIn(stored)(r) {
      if x :| x in stored && IdentityOf(x) == IdentityOf(r) {
        assert x in stored + w && r in stored + w && !Confused(x, r);
      }
    }
    SameSelection(w, NotStored(stored), NotIn(stored));
  }

  /** What convergence means for one stage: as if each record offered so far had been written once. */
  ghost predicate AsIfOnce(l: Log, offered: seq<Record>, stage: Option<string>, cap: int) {
    match l.cutoff
    case None => l.stored == [] && offered == []
    case Some(c) => Select(l.stored, InStage(stage)) == Kept(Once(offered), stage, c, cap)
  }

  ghost predicate Converged(l: Log, offered: seq<Record>, cap: int) {
    forall stage :: AsIfOnce(l, offered, stage, cap)
  }

  lemma StoredWasOffered(l: Log, offered: seq<Record>, cap: int)
    requires Converged(l, offered, cap)
    ensures Within(l.stored, offered)
  {
    forall r | r in l.stored ensures r in offered {
      assert AsIfOnce(l, offered, r.stage, cap);
      if l.cutoff.Some? {
        SelectMembers(l.stored, InStage(r.stage));
        KeptStage(Once(offered), r.stage, l.cutoff.value, cap);
        OnceMembers(offered);
      }
    }
  }

  lemma TellsWithin(rs: seq<Record>, all: seq<Record>)
    requires IdentityTells(all) && Within(rs, all)
    ensures IdentityTells(rs)
  {
  }

  lemma UnseenIsUnstored(l: Log, offered: seq<Record>, batch: seq<Record>, cap: int)
    requires IdentityTells(offered + batch) && Converged(l, offered, cap)
    ensures Within(l.stored, offered)
    ensures Select(batch, NotStored(l.stored)) == Select(batch, NotIn(l.stored))
  {
    StoredWasOffered(l, offered, cap);
    TellsWithin(l.stored + batch, offered + batch);
    UnseenIsNotStored(batch, l.stored);
  }

  /** A window that holds nothing unseen leaves both sides as they were. */
  lemma NothingUnseen(l: Log, offered: seq<Record>, batch: seq<Record>, stage: Option<string>, cap: nat)
    requires NoDup(batch) && Within(l.stored, offered) && Select(batch, NotIn(l.stored)) == []
    requires AsIfOnce(l, offered, stage, cap)
    ensures AsIfOnce(l, offered + batch, stage, cap)
  {
    SelectMembers(batch, NotIn(l.stored));
    forall r | r in batch ensures r in l.stored {
      assert r !in Select(batch, NotIn(l.stored));
    }
    OnceConcat(offered, batch);
    OnceMembers(offered);
    SelectNone(batch, NotIn(Once(offered)));
    assert Once(offered) + [] == Once(offered);
    if batch != [] {
      assert batch[0] in l.stored;
    }
  }

  lemma NewAmongUnseen(w: seq<Record>, stored: seq<Record>, h: seq<Record>)
    requires Within(stored, h)
    ensures Select(Select(w, NotIn(stored)), NotIn(h)) == Select(w, NotIn(h))
  {
    SelectTwice(w, NotIn(stored), NotIn(h));
  }

  /** A write of unseen records, whether or not an earlier write happened. */
  lemma WriteConverges(l: Log, offered: seq<Record>, batch: seq<Record>, stage: Option<string>, c2: int, cap: nat)
    requires NoDup(batch) && Within(l.stored, offered) && AsIfOnce(l, offered, stage, cap)
    requires l.cutoff.Some? ==> l.cutoff.value <= c2
    requires NoTieAcross(Once(offered), batch, stage, c2, cap)
    ensures AsIfOnce(
      Log(Pruned(l.stored + Select(batch, NotIn(l.stored)), c2, cap), Some(c2)), offered + batch, stage, cap)
  {
    var h, unseen := Once(offered), Select(batch, NotIn(l.stored));
    WriteKeepsEachStage(l.stored + unseen, stage, c2, cap);
    OnceMembers(offered);
    OnceConcat(offered, batch);
    if l.cutoff.Some? {
      UnseenWriteConverges(l.stored, h, batch, stage, l.cutoff.value, c2, cap);
    } else {
      SelectAll(batch, NotIn(l.stored));
      SelectAll(batch, NotIn(h));
    }
  }

  /** What one window makes of the log, given the unseen records. */
  function Taken(l: Log, batch: seq<Record>, cutoff: int, cap: int): Log {
    var unseen := Select(batch, NotIn(l.stored));
    if unseen == [] then l else Log(Pruned(l.stored + unseen, cutoff, cap), Some(cutoff))
  }

  /** The same step, with the unseen records found by plain membership. */
  lemma {:induction false} IngestUnseen(l: Log, offered: seq<Record>, w: Write, age: int, cap: int)
    requires IdentityTells(offered + w.batch) && Converged(l, offered, cap)
    ensures Ingest(l, w, age, cap) == Taken(l, w.batch, Cutoff(w, age), cap)
  {
    UnseenIsUnstored(l, offered, w.batch, cap);
  }

  lemma WindowConverges(l: Log, offered: seq<Record>, batch: seq<Record>, stage: Option<string>, c2: int, cap: nat)
    requires NoDup(batch) && Converged(l, offered, cap)
    requires l.cutoff.Some? ==> l.cutoff.value <= c2
    requires NoTieAcross(Once(offered), batch, stage, c2, cap)
    ensures AsIfOnce(Taken(l, batch, c2, cap), offered + batch, stage, cap)
  {
    assert AsIfOnce(l, offered, stage, cap);
    StoredWasOffered(l, offered, cap);
    if Select(batch, NotIn(l.stored)) == [] {
      NothingUnseen(l, offered, batch, stage, cap);
    } else {
      WriteConverges(l, offered, batch, stage, c2, cap);
    }
  }

  /** One more window: whatever it repeats, the stage ends as if only its first-seen records had come. */
  lemma {:induction false} IngestConverges(
    l: Log, offered: seq<Record>, w: Write, stage: Option<string>, age: int, cap: nat)
    requires IdentityTells(offered + w.batch) && NoDup(w.batch)
    requires l.cutoff.Some? ==> l.cutoff.value <= Cutoff(w, age)
    requires Converged(l, offered, cap) && NoTieAcross(Once(offered), w.batch, stage, Cutoff(w, age), cap)
    ensures AsIfOnce(Ingest(l, w, age, cap), offered + w.batch, stage, cap)
  {
    IngestUnseen(l, offered, w, age, cap);
    WindowConverges(l, offered, w.batch, stage, Cutoff(w, age), cap);
  }

  lemma {:induction false} LastCutoff(ws: seq<Write>, age: int, cap: int)
    requires ClockMonotone(ws)
    ensures IngestAll(ws, age, cap).cutoff.Some? ==>
      ws != [] && IngestAll(ws, age, cap).cutoff.value <= Cutoff(ws[|ws| - 1], age)
  {
    if ws != [] {
      LastCutoff(ws[..|ws| - 1], age, cap);
    }
  }

  /** Nothing that window i offers again after its eviction ties with the oldest record kept after it. */
  ghost predicate UntiedBefore(ws: seq<Write>, i: nat, stage: Option<string>, age: int, cap: int)
    requires i < |ws|
  {
    NoTieAcross(Once(Appended(ws[..i])), ws[i].batch, stage, Cutoff(ws[i], age), cap)
  }

  ghost predicate NeverTied(ws: seq<Write>, age: int, cap: int) {
    forall i, stage :: 0 <= i < |ws| ==> UntiedBefore(ws, i, stage, age, cap)
  }

  /** Any sequence of windows, however they overlap, leaves each stage as if every record came once. */
  lemma {:induction false} TailsConverge(ws: seq<Write>, age: int, cap: nat)
    requires ClockMonotone(ws) && IdentityTells(Appended(ws)) && NeverTied(ws, age, cap)
    requires forall i :: 0 <= i < |ws| ==> NoDup(ws[i].batch)
    ensures Converged(IngestAll(ws, age, cap), Appended(ws), cap)
  {
    if ws != [] {
      var front := ws[..|ws| - 1];
      TellsWithin(Appended(front), Appended(ws));
      NeverTiedFront(ws, age, cap);
      TailsConverge(front, age, cap);
      LastCutoff(front, age, cap);
      forall stage ensures AsIfOnce(IngestAll(ws, age, cap), Appended(ws), stage, cap) {
        LastWindowConverges(ws, IngestAll(front, age, cap), stage, age, cap);
      }
    }
  }

  lemma {:induction false} LastWindowConverges(ws: seq<Write>, l: Log, stage: Option<string>, age: int, cap: nat)
    requires ws != [] && IdentityTells(Appended(ws)) && NoDup(ws[|ws| - 1].batch) && NeverTied(ws, age, cap)
    requires l.cutoff.Some? ==> l.cutoff.value <= Cutoff(ws[|ws| - 1], age)
    requires Converged(l, Appended(ws[..|ws| - 1]), cap)
    ensures AsIfOnce(Ingest(l, ws[|ws| - 1], age, cap), Appended(ws), stage, cap)
  {
    assert UntiedBefore(ws, |ws| - 1, stage, age, cap);
    IngestConverges(l, Appended(ws[..|ws| - 1]), ws[|ws| - 1], stage, age, cap);
  }

  lemma NeverTiedFront(ws: seq<Write>, age: int, cap: int)
    requires ws != [] && NeverTied(ws, age, cap)
    ensures NeverTied(ws[..|ws| - 1], age, cap)
  {
    var front := ws[..|ws| - 1];
    forall i, stage | 0 <= i < |front| ensures UntiedBefore(front, i, stage, age, cap) {
      assert front[..i] == ws[..i];
      assert UntiedBefore(ws, i, stage, age, cap);
    }
  }

  /** Within a stage the timestamp tells the record. */
  ghost predicate DistinctTimes(rs: seq<Record>) {
    forall a, b :: a in rs && b in rs && a.stage == b.stage && a.time == b.time ==> a == b
  }

  /** In particular distinct timestamps within each stage rule every tie out. */
  lemma DistinctTimesNeverTie(ws: seq<Write>, age: int, cap: nat)
    requires DistinctTimes(Appended(ws))
    ensures IdentityTells(Appended(ws)) && NeverTied(ws, age, cap)
  {
    forall i, stage | 0 <= i < |ws| ensures UntiedBefore(ws, i, stage, age, cap) {
      AppendedPrefix(ws, i);
      OnceMembers(Appended(ws[..i]));
      DistinctTimesNoTie(Once(Appended(ws[..i])), ws[i].batch, stage, Cutoff(ws[i], age), cap);
    }
  }

  lemma {:induction false} AppendedPrefix(ws: seq<Write>, i: nat)
    requires i <= |ws|
    ensures Within(Appended(ws[..i]), Appended(ws))
  {
    if i < |ws| {
      AppendedPrefix(ws[..|ws| - 1], i);
      assert ws[..|ws| - 1][..i] == ws[..i];
    } else {
      assert ws[..i] == ws;
    }
  }

  lemma DistinctTimesNoTie(h: seq<Record>, batch: seq<Record>, stage: Option<string>, cutoff: int, cap: nat)
    requires DistinctTimes(h)
    ensures NoTieAcross(h, batch, stage, cutoff, cap)
  {
    var added := Select(batch, NotIn(h));
    var kept := Kept(h + added, stage, cutoff, cap);
    forall e | e in batch && e in h && IsEvicted(h, stage, cutoff, cap, e)
      ensures kept != [] && TimeKey(e) != TimeKey(kept[0])
    {
      EvictedBelowLater(h, added, stage, cutoff, cap, e);
      EvictedApart(h, stage, cutoff, cap, e);
    }
  }

  lemma EvictedApart(h: seq<Record>, stage: Option<string>, cutoff: int, cap: nat, e: Record)
    requires DistinctTimes(h) && e in h && IsEvicted(h, stage, cutoff, cap, e)
    ensures Kept(h, stage, cutoff, cap) != [] && TimeKey(e) != TimeKey(Kept(h, stage, cutoff, cap)[0])
  {
    var kept := Kept(h, stage, cutoff, cap);
    EvictedBelow(h, stage, cutoff, cap, e);
    KeptStage(h, stage, cutoff, cap);
    assert kept[0] in kept;
  }

  // ---- Exactly when a re-read converges ----

  lemma {:induction false} OnceOfNoDup(h: seq<Record>)
    requires NoDup(h)
    ensures Once(h) == h
  {
    if h != [] {
      OnceOfNoDup(h[..|h| - 1]);
      assert h == h[..|h| - 1] + [h[|h| - 1]];
    }
  }

  /** Some record of u has time k: split u at the last of them. */
  lemma {:induction false} LastTied(u: seq<Record>, k: int) returns (a: seq<Record>, x: Record, b: seq<Record>)
    requires exists r :: r in u && TimeKey(r) == k
    ensures u == a + [x] + b && TimeKey(x) == k && forall r :: r in b ==> TimeKey(r) != k
  {
    var front, last := u[..|u| - 1], u[|u| - 1];
    if TimeKey(last) == k {
      a, x, b := front, last, [];
    } else {
      var r :| r in u && TimeKey(r) == k;
      assert u == front + [last] && r in front;
      a, x, b := LastTied(front, k);
      b := b + [last];
      assert u == a + [x] + b;
    }
  }

  /** The last re-offered record at the cut lands among the last cap. */
  lemma LastTiedLands(kept: seq<Record>, u: seq<Record>, cap: nat) returns (x: Record)
    requires Sorted(kept, TimeKey) && |kept| == cap > 0
    requires forall r :: r in u ==> TimeKey(r) <= TimeKey(kept[0])
    requires exists r :: r in u && TimeKey(r) == TimeKey(kept[0])
    ensures x in u && x in LastN(Sort(kept + u, TimeKey), cap)
  {
    var k := TimeKey(kept[0]);
    var a, y, b := LastTied(u, k);
    x := y;
    BelowTail(kept, a, x, b, cap);
    var before, after := LastPlace(kept + a, x, TimeKey);
    FewAbove(kept, a, k);
    var s := Sort(kept + a + [x], TimeKey);
    assert s[|before|] == x && |before| >= |s| - cap;
    assert LastN(s, cap)[|before| - (|s| - cap)] == x;
  }

  lemma FewAbove(kept: seq<Record>, a: seq<Record>, k: int)
    requires kept != [] && TimeKey(kept[0]) == k && forall r :: r in a ==> TimeKey(r) <= k
    ensures |Select(kept + a, Above(TimeKey, k))| < |kept|
  {
    SelectConcat(kept, a, Above(TimeKey, k));
    SelectNone(a, Above(TimeKey, k));
    assert Select(kept, Above(TimeKey, k)) == Select(kept[1..], Above(TimeKey, k));
  }

  lemma BelowTail(kept: seq<Record>, a: seq<Record>, x: Record, b: seq<Record>, cap: nat)
    requires Sorted(kept, TimeKey) && |kept| == cap > 0
    requires forall r :: r in b ==> TimeKey(r) < TimeKey(kept[0])
    ensures LastN(Sort(kept + (a + [x] + b), TimeKey), cap) == LastN(Sort(kept + a + [x], TimeKey), cap)
  {
    var k := TimeKey(kept[0]);
    var top := AtLeast(TimeKey, k);
    assert kept + (a + [x] + b) == (kept + a + [x]) + b;
    SelectConcat(kept + a + [x], b, top);
    SelectNone(b, top);
    assert Select(kept + a + [x], top) + [] == Select(kept + a + [x], top);
    assert kept + a + [x] == kept + (a + [x]);
    SelectConcat(kept, a + [x], top);
    SelectAll(kept, top);
    SameTop(kept + (a + [x] + b), kept + a + [x], cap, k, TimeKey);
  }

  /** A tie across the cut makes the re-offered record displace a kept one. */
  lemma TieDisplaces(
    stored: seq<Record>, h: seq<Record>, unseen: seq<Record>, stage: Option<string>, c1: int, c2: int, cap: nat)
    requires c1 <= c2 && Select(stored, InStage(stage)) == Kept(h, stage, c1, cap)
    requires unseen == Select(h, NotIn(stored)) && !NoTieAcross(h, h, stage, c2, cap)
    ensures Kept(stored + unseen, stage, c2, cap) != Kept(h, stage, c2, cap)
  {
    var kept, u := Kept(h, stage, c2, cap), StageFresh(unseen, stage, c2);
    NothingAdded(h, stage, c2, cap);
    var e :| e in h && IsEvicted(h, stage, c2, cap, e) && (kept == [] || TimeKey(e) == TimeKey(kept[0]));
    EvictedBelow(h, stage, c2, cap, e);
    SelectMembers(h, NotIn(stored));
    SelectMembers(stored, InStage(stage));
    StageFreshMembers(unseen, stage, c2);
    KeptLater(h, stage, c1, c2, cap, e);
    assert e in u;
    forall r | r in u ensures r !in kept && TimeKey(r) <= TimeKey(kept[0]) {
      UnstoredIsEvicted(stored, h, stage, c1, c2, cap, r);
      EvictedBelow(h, stage, c2, cap, r);
    }
    KeptSorted(h, stage, c2, cap);
    StoredStageFresh(stored, h, stage, c1, c2, cap);
    StageFreshConcat(stored, unseen, stage, c2);
    var x := LastTiedLands(kept, u, cap);
  }

  lemma NothingAdded(h: seq<Record>, stage: Option<string>, cutoff: int, cap: int)
    ensures Kept(h + Select(h, NotIn(h)), stage, cutoff, cap) == Kept(h, stage, cutoff, cap)
  {
    SelectNone(h, NotIn(h));
    assert h + [] == h;
  }

  lemma StoredStageFresh(stored: seq<Record>, h: seq<Record>, stage: Option<string>, c1: int, c2: int, cap: nat)
    requires c1 <= c2 && Select(stored, InStage(stage)) == Kept(h, stage, c1, cap)
    ensures StageFresh(stored, stage, c2) == Kept(h, stage, c2, cap)
  {
    SelectCommutes(stored, Fresh(c2), InStage(stage));
    KeptAges(h, stage, c1, c2, cap);
    KeptStage(h, stage, c1, cap);
    SelectAll(Kept(h, stage, c1, cap), InStage(stage));
    SelectCommutes(Kept(h, stage, c1, cap), Fresh(c2), InStage(stage));
  }

  /**
   Offering the whole history w.batch once more leaves a stage as one ingestion would, if and only if
   no record it evicts ties with the oldest one it keeps.
   */
  lemma {:induction false} RereadConvergesExactly(l: Log, w: Write, stage: Option<string>, age: int, cap: nat)
    requires NoDup(w.batch) && IdentityTells(w.batch) && l.cutoff.Some? && l.cutoff.value <= Cutoff(w, age)
    requires Converged(l, w.batch, cap)
    ensures AsIfOnce(Ingest(l, w, age, cap), w.batch, stage, cap)
         == NoTieAcross(w.batch, w.batch, stage, Cutoff(w, age), cap)
  {
    TellsTwice(w.batch);
    IngestUnseen(l, w.batch, w, age, cap);
    OfferedAgain(l, w.batch, stage, Cutoff(w, age), cap);
  }

  lemma TellsTwice(h: seq<Record>)
    requires IdentityTells(h)
    ensures IdentityTells(h + h)
  {
    TellsWithin(h + h, h);
  }

  lemma {:induction false} OfferedAgain(l: Log, h: seq<Record>, stage: Option<string>, c2: int, cap: nat)
    requires NoDup(h) && l.cutoff.Some? && l.cutoff.value <= c2
    requires Converged(l, h, cap)
    ensures AsIfOnce(Taken(l, h, c2, cap), h, stage, cap) == NoTieAcross(h, h, stage, c2, cap)
  {
    var unseen := Select(h, NotIn(l.stored));
    assert AsIfOnce(l, h, stage, cap);
    OnceOfNoDup(h);
    if unseen == [] {
      NothingEvicted(l.stored, h, stage, l.cutoff.value, c2, cap);
    } else {
      StoredWasOffered(l, h, cap);
      WrittenAgain(l.stored, h, unseen, stage, l.cutoff.value, c2, cap);
    }
  }

  lemma WrittenAgain(
    stored: seq<Record>, h: seq<Record>, unseen: seq<Record>, stage: Option<string>, c1: int, c2: int, cap: nat)
    requires c1 <= c2 && Select(stored, InStage(stage)) == Kept(h, stage, c1, cap)
    requires unseen == Select(h, NotIn(stored)) && Within(stored, h)
    ensures Select(Pruned(stored + unseen, c2, cap), InStage(stage)) == Kept(h, stage, c2, cap) <==>
      NoTieAcross(h, h, stage, c2, cap)
  {
    WriteKeepsEachStage(stored + unseen, stage, c2, cap);
    if NoTieAcross(h, h, stage, c2, cap) {
      NoTieKeeps(stored, h, unseen, stage, c1, c2, cap);
    } else {
      TieDisplaces(stored, h, unseen, stage, c1, c2, cap);
    }
  }

  lemma NoTieKeeps(
    stored: seq<Record>, h: seq<Record>, unseen: seq<Record>, stage: Option<string>, c1: int, c2: int, cap: nat)
    requires c1 <= c2 && Select(stored, InStage(stage)) == Kept(h, stage, c1, cap)
    requires unseen == Select(h, NotIn(stored)) && Within(stored, h) && NoTieAcross(h, h, stage, c2, cap)
    ensures Kept(stored + unseen, stage, c2, cap) == Kept(h, stage, c2, cap)
  {
    UnseenWriteConverges(stored, h, h, stage, c1, c2, cap);
    NothingAdded(h, stage, c2, cap);
  }

  lemma NothingEvicted(stored: seq<Record>, h: seq<Record>, stage: Option<string>, c1: int, c2: int, cap: nat)
    requires c1 <= c2 && Select(stored, InStage(stage)) == Kept(h, stage, c1, cap) && Select(h, NotIn(stored)) == []
    ensures NoTieAcross(h, h, stage, c2, cap)
  {
    SelectMembers(h, NotIn(stored));
    SelectMembers(stored, InStage(stage));
    forall e | e in h && e.stage == stage && Fresh(c2)(e) ensures !IsEvicted(h, stage, c2, cap, e) {
      assert e !in Select(h, NotIn(stored));
      KeptLater(h, stage, c1, c2, cap, e);
    }
  }

  /**
   The condition can fail: of two records at one instant and a cap of one, the second read brings back the
   evicted one.
   */
  lemma TiedRereadFails()
    ensures var a := Record("p", Some("adaptor"), None, "e", None, Some(5), "");
      var w := Write(5, [a, a.(event := "f")]);
      var once := Ingest(Log([], None), w, 0, 1);
      && Converged(once, w.batch, 1) && !AsIfOnce(Ingest(once, w, 0, 1), w.batch, Some("adaptor"), 1)
  {
    var a := Record("p", Some("adaptor"), None, "e", None, Some(5), "");
    var b := a.(event := "f");
    TiedRereadFailsFor(a, b, Write(5, [a, b]), 5);
  }

  lemma TiedRereadFailsFor(a: Record, b: Record, w: Write, now: nat)
    requires w == Write(now, [a, b]) && IdentityOf(a) != IdentityOf(b)
    requires a.stage == b.stage && a.time == b.time == Some(now)
    ensures var once := Ingest(Log([], None), w, 0, 1);
      && Converged(once, w.batch, 1) && !AsIfOnce(Ingest(once, w, 0, 1), w.batch, a.stage, 1)
  {
    var once := Ingest(Log([], None), w, 0, 1);
    FirstReadConverges(w, 0, 1);
    TiedKept(a, b, now);
    NothingAdded(w.batch, a.stage, now, 1);
    assert a in w.batch && a != b && IsEvicted(w.batch, a.stage, Cutoff(w, 0), 1, a);
    assert !NoTieAcross(w.batch, w.batch, a.stage, Cutoff(w, 0), 1);
    RereadConvergesExactly(once, w, a.stage, 0, 1);
  }

  lemma TiedKept(a: Record, b: Record, now: nat)
    requires a.stage == b.stage && a.time == b.time == Some(now)
    ensures Kept([a, b], a.stage, now, 1) == [b]
  {
    SelectAll([a, b], Fresh(now));
    SelectAll([a, b], InStage(a.stage));
    SortSortedIsSame([a, b], TimeKey);
  }

  lemma FirstReadConverges(w: Write, age: int, cap: nat)
    requires w.batch != [] && NoDup(w.batch) && IdentityTells(w.batch)
    ensures Converged(Ingest(Log([], None), w, age, cap), w.batch, cap)
    ensures Ingest(Log([], None), w, age, cap).cutoff == Some(Cutoff(w, age))
  {
    var start := Log([], None);
    assert Converged(start, [], cap);
    assert [] + w.batch == w.batch;
    forall stage ensures AsIfOnce(Ingest(start, w, age, cap), w.batch, stage, cap) {
      IngestConverges(start, [], w, stage, age, cap);
    }
    SelectAll(w.batch, NotStored([]));
  }

  // ---- Tails of one log ----

  /** Windows [starts[i], ends[i]) of one append-only log, each reaching back to the one before. */
  ghost predicate OverlappingTails(log: seq<Record>, ws: seq<Write>, starts: seq<nat>, ends: seq<nat>) {
    && |starts| == |ends| == |ws|
    && (forall i :: 0 <= i < |ws| ==> starts[i] <= ends[i] <= |log| && ws[i].batch == log[starts[i]..ends[i]])
    && (forall i :: 0 <= i < |ws| ==> starts[i] <= if i == 0 then 0 else ends[i - 1])
    && (forall i :: 0 < i < |ws| ==> ends[i - 1] <= ends[i])
  }

  lemma Slices(log: seq<Record>, start: nat, b: nat, end: nat)
    requires start <= b <= end <= |log|
    ensures log[start..end] == log[start..b] + log[b..end] && log[..b] + log[b..end] == log[..end]
    ensures Within(log[start..b], log[..b])
  {
  }

  lemma FreshSlice(log: seq<Record>, start: nat, b: nat, end: nat)
    requires NoDup(log) && start <= b <= end <= |log|
    ensures NoDup(log[start..end])
    ensures forall r :: r in log[b..end] ==> r !in log[..b]
  {
  }

  lemma AddedRemain(known: seq<Record>, repeated: seq<Record>, added: seq<Record>)
    requires Within(repeated, known) && forall r :: r in added ==> r !in known
    ensures Select(repeated + added, NotIn(known)) == added
  {
    SelectConcat(repeated, added, NotIn(known));
    SelectNone(repeated, NotIn(known));
    SelectAll(added, NotIn(known));
    assert [] + added == added;
  }

  lemma NextTail(log: seq<Record>, h: seq<Record>, start: nat, b: nat, end: nat)
    requires NoDup(log) && start <= b <= end <= |log| && Once(h) == log[..b]
    ensures Once(h + log[start..end]) == log[..end]
  {
    Slices(log, start, b, end);
    FreshSlice(log, start, b, end);
    OnceConcat(h, log[start..end]);
    AddedRemain(log[..b], log[start..b], log[b..end]);
  }

  lemma {:induction false} TailsCoverLog(log: seq<Record>, ws: seq<Write>, starts: seq<nat>, ends: seq<nat>)
    requires NoDup(log) && OverlappingTails(log, ws, starts, ends)
    ensures Once(Appended(ws)) == if ws == [] then [] else log[..ends[|ws| - 1]]
  {
    if ws != [] {
      var n := |ws| - 1;
      TailsCoverLog(log, ws[..n], starts[..n], ends[..n]);
      NextTail(log, Appended(ws[..n]), starts[n], if n == 0 then 0 else ends[n - 1], ends[n]);
    }
  }

  lemma TailsAreDistinct(log: seq<Record>, ws: seq<Write>, starts: seq<nat>, ends: seq<nat>)
    requires NoDup(log) && IdentityTells(log) && OverlappingTails(log, ws, starts, ends)
    ensures IdentityTells(Appended(ws)) && forall i :: 0 <= i < |ws| ==> NoDup(ws[i].batch)
  {
    AppendedFromLog(log, ws, starts, ends);
    forall i | 0 <= i < |ws| ensures NoDup(ws[i].batch) {
      FreshSlice(log, starts[i], ends[i], ends[i]);
    }
  }

  /** Stage by stage, the store of a re-read log is the store of the log read once. */
  lemma {:induction false} RereadStageConverges(
    log: seq<Record>, ws: seq<Write>, starts: seq<nat>, ends: seq<nat>, stage: Option<string>, age: int, cap: nat)
    requires NoDup(log) && IdentityTells(log) && ClockMonotone(ws) && OverlappingTails(log, ws, starts, ends)
    requires NeverTied(ws, age, cap)
    ensures var l := IngestAll(ws, age, cap);
      match l.cutoff
      case None => l.stored == [] && forall i :: 0 <= i < |ws| ==> starts[i] == ends[i]
      case Some(c) => ws != [] && Select(l.stored, InStage(stage)) == Kept(log[..ends[|ws| - 1]], stage, c, cap)
  {
    LastCutoff(ws, age, cap);
    TailsAreDistinct(log, ws, starts, ends);
    TailsConverge(ws, age, cap);
    TailsCoverLog(log, ws, starts, ends);
    assert AsIfOnce(IngestAll(ws, age, cap), Appended(ws), stage, cap);
    if IngestAll(ws, age, cap).cutoff.None? {
      TailsEmpty(log, ws, starts, ends);
    }
  }

  lemma TailsEmpty(log: seq<Record>, ws: seq<Write>, starts: seq<nat>, ends: seq<nat>)
    requires OverlappingTails(log, ws, starts, ends) && Appended(ws) == []
    ensures forall i :: 0 <= i < |ws| ==> starts[i] == ends[i]
  {
    NothingAppended(ws);
    forall i | 0 <= i < |ws| ensures starts[i] == ends[i] {
      assert ws[i].batch == [];
    }
  }

  lemma {:induction false} NothingAppended(ws: seq<Write>)
    requires Appended(ws) == []
    ensures forall i :: 0 <= i < |ws| ==> ws[i].batch == []
  {
    if ws != [] {
      NothingAppended(ws[..|ws| - 1]);
    }
  }

  lemma {:induction false} AppendedFromLog(log: seq<Record>, ws: seq<Write>, starts: seq<nat>, ends: seq<nat>)
    requires OverlappingTails(log, ws, starts, ends)
    ensures forall r :: r in Appended(ws) ==> r in log
  {
    if ws != [] {
      var n := |ws| - 1;
      AppendedFromLog(log, ws[..n], starts[..n], ends[..n]);
    }
  }

  /** Records of different stages never share a timestamp. */
  ghost predicate StagesApart(rs: seq<Record>) {
    forall a, b :: a in rs && b in rs && TimeKey(a) == TimeKey(b) ==> a.stage == b.stage
  }

  ghost predicate SameStages(s: seq<Record>, t: seq<Record>) {
    forall stage :: StageAgrees(s, t, stage)
  }

  predicate StageAgrees(s: seq<Record>, t: seq<Record>, stage: Option<string>) {
    Select(s, InStage(stage)) == Select(t, InStage(stage))
  }

  lemma SameHead(s: seq<Record>, t: seq<Record>)
    requires s != [] && t != [] && Sorted(s, TimeKey) && Sorted(t, TimeKey) && StagesApart(s + t) && SameStages(s, t)
    ensures s[0] == t[0]
  {
    assert StageAgrees(s, t, s[0].stage) && StageAgrees(s, t, t[0].stage);
    HeadOfStage(s, t);
    HeadOfStage(t, s);
    assert s[0] in s + t && t[0] in s + t;
  }

  lemma SameRest(s: seq<Record>, t: seq<Record>)
    requires s != [] && t != [] && s[0] == t[0] && SameStages(s, t)
    ensures SameStages(s[1..], t[1..])
  {
    forall stage ensures StageAgrees(s[1..], t[1..], stage) {
      assert StageAgrees(s, t, stage);
      assert s == [s[0]] + s[1..] && t == [s[0]] + t[1..];
      SelectFront(s[0], s[1..], InStage(stage));
      SelectFront(s[0], t[1..], InStage(stage));
      CutFront(s[0], Select(s[1..], InStage(stage)), Select(t[1..], InStage(stage)));
    }
  }

  lemma CutFront(x: Record, a: seq<Record>, b: seq<Record>)
    ensures [x] + a == [x] + b ==> a == b
  {
    assert ([x] + a)[1..] == a && ([x] + b)[1..] == b;
  }

  lemma NoneLeft(s: seq<Record>)
    requires SameStages(s, [])
    ensures s == []
  {
    assert s != [] ==> StageAgrees(s, [], s[0].stage);
  }

  lemma ApartRest(s: seq<Record>, t: seq<Record>)
    requires s != [] && t != [] && StagesApart(s + t)
    ensures StagesApart(s[1..] + t[1..])
  {
    assert forall r :: r in s[1..] ==> r in s;
    assert forall r :: r in t[1..] ==> r in t;
    forall a, b | a in s[1..] + t[1..] && b in s[1..] + t[1..] && TimeKey(a) == TimeKey(b) ensures a.stage == b.stage {
      assert a in s + t && b in s + t;
    }
  }

  /** A sorted list whose stages are apart in time is determined by its stages. */
  lemma {:induction false} SortedByStage(s: seq<Record>, t: seq<Record>)
    requires Sorted(s, TimeKey) && Sorted(t, TimeKey) && StagesApart(s + t) && SameStages(s, t)
    ensures s == t
  {
    if s == [] {
      forall stage ensures StageAgrees(t, [], stage) {
        assert StageAgrees(s, t, stage);
      }
      NoneLeft(t);
    } else if t == [] {
      NoneLeft(s);
    } else {
      SameHead(s, t);
      SameRest(s, t);
      ApartRest(s, t);
      SortedByStage(s[1..], t[1..]);
    }
  }

  /** The first record of s is in t, and is t's first when t starts with the same stage. */
  lemma HeadOfStage(s: seq<Record>, t: seq<Record>)
    requires s != [] && Sorted(t, TimeKey) && Select(s, InStage(s[0].stage)) == Select(t, InStage(s[0].stage))
    ensures t != [] && TimeKey(t[0]) <= TimeKey(s[0])
    ensures t[0].stage == s[0].stage ==> t[0] == s[0]
  {
    var mine := Select(t, InStage(s[0].stage));
    assert mine[0] == s[0];
    SelectMembers(t, InStage(s[0].stage));
    assert s[0] in mine;
    var i :| 0 <= i < |t| && t[i] == s[0];
  }

  lemma PrunedSorted(rs: seq<Record>, cutoff: int, cap: int)
    ensures Sorted(Pruned(rs, cutoff, cap), TimeKey)
    ensures Within(Pruned(rs, cutoff, cap), rs)
  {
    var all := Capped(StageOrder(Select(rs, Fresh(cutoff))), rs, cutoff, cap);
    InsertAllSorted(all, [], TimeKey);
    forall r | r in Pruned(rs, cutoff, cap) ensures r in rs {
      WriteKeepsEachStage(rs, r.stage, cutoff, cap);
      SelectMembers(Pruned(rs, cutoff, cap), InStage(r.stage));
      KeptStage(rs, r.stage, cutoff, cap);
    }
  }

  lemma {:induction false} StoreSorted(ws: seq<Write>, age: int, cap: int)
    ensures Sorted(IngestAll(ws, age, cap).stored, TimeKey)
  {
    if ws != [] {
      var l, w := IngestAll(ws[..|ws| - 1], age, cap), ws[|ws| - 1];
      StoreSorted(ws[..|ws| - 1], age, cap);
      PrunedSorted(l.stored + Select(w.batch, NotStored(l.stored)), Cutoff(w, age), cap);
    }
  }

  /** The whole store of a re-read log is that of the log pruned once, at the last write's time. */
  lemma {:induction false} RereadLogConverges(
    log: seq<Record>, ws: seq<Write>, starts: seq<nat>, ends: seq<nat>, age: int, cap: nat)
    requires NoDup(log) && IdentityTells(log) && StagesApart(log)
    requires ClockMonotone(ws) && OverlappingTails(log, ws, starts, ends)
    requires NeverTied(ws, age, cap)
    ensures var l := IngestAll(ws, age, cap);
      l.cutoff.Some? ==> ws != [] && l.stored == Pruned(log[..ends[|ws| - 1]], l.cutoff.value, cap)
  {
    var l := IngestAll(ws, age, cap);
    if l.cutoff.Some? {
      LastCutoff(ws, age, cap);
      var read, c := log[..ends[|ws| - 1]], l.cutoff.value;
      StoreSorted(ws, age, cap);
      PrunedSorted(read, c, cap);
      forall stage ensures StageAgrees(l.stored, Pruned(read, c, cap), stage) {
        RereadStageConverges(log, ws, starts, ends, stage, age, cap);
        WriteKeepsEachStage(read, stage, c, cap);
      }
      SameMembers(l.stored, Pruned(read, c, cap));
      SortedByStage(l.stored, Pruned(read, c, cap));
    }
  }

  lemma SameMembers(s: seq<Record>, t: seq<Record>)
    requires SameStages(s, t)
    ensures Within(s, t)
  {
    forall r | r in s ensures r in t {
      assert StageAgrees(s, t, r.stage);
      SelectMembers(s, InStage(r.stage));
      SelectMembers(t, InStage(r.stage));
      assert r in Select(s, InStage(r.stage));
    }
  }
}
