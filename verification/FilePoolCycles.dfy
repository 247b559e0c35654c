/**
 What one cycle of the worker pool leaves to the next, on a source nobody writes
 meanwhile: which files are still pending, which paths are published, and what
 becomes of a file whose send raised. On Azure a copy may still be landing when
 the next cycle lists both containers, or have been aborted; every condition here
 says what that changes.

 A service that refuses a second copy of a file under way makes that copy raise.
 */
module FilePoolCycles {
  import opened Wrappers
  import opened Seqs
  import opened FileCopy
  import opened FilePool

  /** A worker's step, each call raising as its file's script says, or a copy that Azure lands or aborts. */
  predicate IsMove(env: Env, e: Event) {
    e.Land? || e.Abort? || (e.Work? && e.fault == env.fault(e.key))
  }

  ghost predicate IsCycle(env: Env, es: seq<Event>) {
    forall i :: 0 <= i < |es| ==> IsMove(env, es[i])
  }

  function WorldOf(s: Pool): World {
    World(s.source, s.target, s.clock, s.sent)
  }

  /** What the pre-filter flags of a listing of both containers. */
  function PendingOf(s: Pool): set<string> {
    set k | k in s.source && NeedsCopy(WorldOf(s), k)
  }

  /** A cycle that lists both containers now. */
  function BeginCycle(env: Env, s: Pool): Pool {
    Step(env, s, NewCycle(PendingOf(s)))
  }

  // ---- What is pending afterwards ----

  /** The step puts a copy of key into the target. */
  predicate Puts(s: Pool, e: Event, key: string) {
    if e.Land? then e.key == key && key in s.landing
    else e.Work? && e.key == key && key in s.workers && s.workers[key].Copying?
  }

  /** Some copy of key lands, of this cycle or of an earlier one. */
  predicate Lands(env: Env, s: Pool, es: seq<Event>, key: string) {
    es != [] && (Lands(env, s, es[..|es| - 1], key) || Puts(Run(env, s, es[..|es| - 1]), es[|es| - 1], key))
  }

  predicate NewerThan(objects: map<string, Obj>, key: string, time: int) {
    key in objects && objects[key].modified.Some? && objects[key].modified.value > time
  }

  predicate TargetFollows(s: Pool, t: Pool, puts: bool, key: string) {
    && t.source == s.source && t.clock >= s.clock
    && if puts then NewerThan(t.target, key, s.clock) else Modified(t.target, key) == Modified(s.target, key)
  }

  lemma WorkOnTarget(env: Env, s: Pool, key: string, f: Fault)
    requires key in s.workers
    ensures TargetFollows(s, Work1(env, s, key, f), s.workers[key].Copying?, key)
  {
  }

  lemma WorkOnOtherTarget(env: Env, s: Pool, key: string, f: Fault, k: string)
    requires key in s.workers && k != key
    ensures TargetFollows(s, Work1(env, s, key, f), false, k)
  {
    WorkTouchesOnly(env, s, key, f, k);
  }

  lemma MoveOnTarget(env: Env, s: Pool, e: Event, key: string)
    requires IsMove(env, e)
    ensures TargetFollows(s, Step(env, s, e), Puts(s, e, key), key)
  {
    if e.Work? && e.key in s.workers {
      if e.key == key {
        WorkOnTarget(env, s, key, e.fault);
      } else {
        WorkOnOtherTarget(env, s, e.key, e.fault, key);
      }
    }
  }

  lemma {:induction false} CycleOnTarget(env: Env, s: Pool, es: seq<Event>, key: string)
    requires IsCycle(env, es)
    ensures TargetFollows(s, Run(env, s, es), Lands(env, s, es, key), key)
  {
    if es != [] {
      CycleOnTarget(env, s, es[..|es| - 1], key);
      MoveOnTarget(env, Run(env, s, es[..|es| - 1]), es[|es| - 1], key);
    }
  }

  /**
   After a cycle, whatever its faults, a file needs a copy if and only if it did before and no copy
   of it landed; one without a source time always does.
   */
  lemma CycleLeavesPendingExactly(env: Env, s: Pool, es: seq<Event>, key: string)
    requires IsCycle(env, es) && NotAfter(s.source, key, s.clock)
    ensures NeedsCopy(WorldOf(Run(env, s, es)), key)
      <==> NeedsCopy(WorldOf(s), key) && (Lands(env, s, es, key) ==> Modified(s.source, key).None?)
  {
    CycleOnTarget(env, s, es, key);
  }

  // ---- What is published ----

  /** The worker has not read the target's time yet. */
  predicate Gated(s: Pool, key: string) {
    key in s.workers && (s.workers[key].Queued? || s.workers[key].SawSource?)
  }

  predicate LandsEarly(s: Pool, e: Event, key: string) {
    e == Land(key) && key in s.landing && Gated(s, key)
  }

  /** A copy that an earlier cycle left under way lands before key's worker reads the target's time. */
  predicate LandsFirst(env: Env, s: Pool, es: seq<Event>, key: string) {
    es != [] && (LandsFirst(env, s, es[..|es| - 1], key) || LandsEarly(Run(env, s, es[..|es| - 1]), es[|es| - 1], key))
  }

  /** The gate lets key through, judged from the world w the cycle started in and from whether a copy landed first. */
  predicate Opens(env: Env, w: World, first: bool, key: string) {
    GateOpens(env, w, key) && (env.fault(key).targetHead || !first)
  }

  /** Where key's worker stands. */
  predicate Tracks(env: Env, w: World, first: bool, s: Pool, key: string) {
    && key in s.workers && s.source == w.source && s.clock >= w.clock && NotAfter(w.source, key, w.clock)
    && (Gated(s, key) ==>
          if first then NewerThan(s.target, key, w.clock) else Modified(s.target, key) == Modified(w.target, key))
    && (key in s.sent <==> s.workers[key] == Done(DoneCopied))
    && var f := env.fault(key);
       match s.workers[key]
       case Queued => true
       case SawSource(time) =>
         && env.validKey(key) && env.provider != Other
         && ReadHead(env.provider, Modified(w.source, key), f.sourceHead) == At(time)
       case MustCopy => Opens(env, w, first, key)
       case Copying(_) => Opens(env, w, first, key) && !f.copy
       case Returned => Opens(env, w, first, key) && !f.copy
       case Done(r) =>
         if Opens(env, w, first, key) && !f.copy then r == (if f.send then DoneUnsent else DoneCopied)
         else r == DoneSkipped || r == DoneFailed
  }

  lemma SourceReadTracks(env: Env, w: World, first: bool, s: Pool, key: string)
    requires Tracks(env, w, first, s, key) && s.workers[key].Queued?
    ensures Tracks(env, w, first, Work1(env, s, key, env.fault(key)), key)
  {
  }

  lemma TargetReadTracks(env: Env, w: World, first: bool, s: Pool, key: string)
    requires Tracks(env, w, first, s, key) && s.workers[key].SawSource?
    ensures Tracks(env, w, first, Work1(env, s, key, env.fault(key)), key)
  {
  }

  lemma CopyTracks(env: Env, w: World, first: bool, s: Pool, key: string)
    requires Tracks(env, w, first, s, key) && (s.workers[key].MustCopy? || s.workers[key].Copying?)
    ensures Tracks(env, w, first, Work1(env, s, key, env.fault(key)), key)
  {
  }

  lemma PublishTracks(env: Env, w: World, first: bool, s: Pool, key: string)
    requires Tracks(env, w, first, s, key) && (s.workers[key].Returned? || s.workers[key].Done?)
    ensures Tracks(env, w, first, Work1(env, s, key, env.fault(key)), key)
  {
  }

  lemma OwnStepTracks(env: Env, w: World, first: bool, s: Pool, key: string)
    requires Tracks(env, w, first, s, key)
    ensures Tracks(env, w, first, Work1(env, s, key, env.fault(key)), key)
  {
    match s.workers[key]
    case Queued => SourceReadTracks(env, w, first, s, key);
    case SawSource(_) => TargetReadTracks(env, w, first, s, key);
    case MustCopy => CopyTracks(env, w, first, s, key);
    case Copying(_) => CopyTracks(env, w, first, s, key);
    case Returned => PublishTracks(env, w, first, s, key);
    case Done(_) => PublishTracks(env, w, first, s, key);
  }

  lemma MoveTracks(env: Env, w: World, first: bool, s: Pool, e: Event, key: string)
    requires Tracks(env, w, first, s, key) && IsMove(env, e)
    ensures Tracks(env, w, first || LandsEarly(s, e, key), Step(env, s, e), key)
  {
    if e.Work? && e.key in s.workers {
      if e.key == key {
        OwnStepTracks(env, w, first, s, key);
      } else {
        WorkTouchesOnly(env, s, e.key, e.fault, key);
      }
    }
  }

  lemma {:induction false} CycleTracks(env: Env, s: Pool, es: seq<Event>, key: string)
    requires IsCycle(env, es) && NotAfter(s.source, key, s.clock)
    requires key in s.workers && s.workers[key].Queued? && key !in s.sent
    ensures Tracks(env, WorldOf(s), LandsFirst(env, s, es, key), Run(env, s, es), key)
  {
    if es != [] {
      var front := es[..|es| - 1];
      CycleTracks(env, s, front, key);
      MoveTracks(env, WorldOf(s), LandsFirst(env, s, front, key), Run(env, s, front), es[|es| - 1], key);
    }
  }

  /**
   On every provider, under any faults and any interleaving: a file whose worker is done was
   published if and only if its gate opened in the world the cycle started in, no copy of an earlier
   cycle landed before the worker read the target's time, and neither its copy nor its send raised.
   */
  lemma PublishedExactly(env: Env, s: Pool, es: seq<Event>, key: string)
    requires IsCycle(env, es) && NotAfter(s.source, key, s.clock)
    requires key in s.workers && s.workers[key].Queued? && key !in s.sent
    requires AllDone(Run(env, s, es).workers)
    ensures var f := env.fault(key);
      key in Run(env, s, es).sent
      <==> MustMove(env, WorldOf(s), key) && (f.targetHead || !LandsFirst(env, s, es, key)) && !f.send
  {
    CycleTracks(env, s, es, key);
  }

  // ---- A fault-free cycle and the next one ----

  /**
   With no earlier copy of key under way: nothing of key lands before its own copy begins, and what landed
   is `written`.
   */
  predicate OwnCopyOnly(s: Pool, lands: bool, key: string) {
    && (Gated(s, key) || (key in s.workers && s.workers[key].MustCopy?) ==> key !in s.landing && !lands)
    && (key !in s.workers ==> key !in s.landing && key !in s.aborted)
    && (key in s.written <==> lands)
  }

  lemma WorkOwnCopyOnly(env: Env, s: Pool, f: Fault, lands: bool, key: string)
    requires OwnCopyOnly(s, lands, key) && key in s.workers
    ensures OwnCopyOnly(Work1(env, s, key, f), lands || s.workers[key].Copying?, key)
  {
  }

  lemma WorkOtherCopyOnly(env: Env, s: Pool, key: string, f: Fault, lands: bool, k: string)
    requires OwnCopyOnly(s, lands, k) && key in s.workers && k != key
    ensures OwnCopyOnly(Work1(env, s, key, f), lands, k)
  {
    WorkTouchesOnly(env, s, key, f, k);
  }

  lemma MoveOwnCopyOnly(env: Env, s: Pool, e: Event, lands: bool, key: string)
    requires OwnCopyOnly(s, lands, key) && IsMove(env, e)
    ensures OwnCopyOnly(Step(env, s, e), lands || Puts(s, e, key), key) && !LandsEarly(s, e, key)
  {
    if e.Work? && e.key in s.workers {
      if e.key == key {
        WorkOwnCopyOnly(env, s, e.fault, lands, key);
      } else {
        WorkOtherCopyOnly(env, s, e.key, e.fault, lands, key);
      }
    }
  }

  lemma {:induction false} CycleOwnCopyOnly(env: Env, s: Pool, es: seq<Event>, key: string)
    requires IsCycle(env, es) && key !in s.landing && key !in s.written && key !in s.aborted
    ensures OwnCopyOnly(Run(env, s, es), Lands(env, s, es, key), key) && !LandsFirst(env, s, es, key)
  {
    if es != [] {
      var front := es[..|es| - 1];
      CycleOwnCopyOnly(env, s, front, key);
      MoveOwnCopyOnly(env, Run(env, s, front), es[|es| - 1], Lands(env, s, front, key), key);
    }
  }

  ghost predicate CleanPool(env: Env, s: Pool) {
    && env.provider != Other
    && (forall k :: k in s.source ==> env.validKey(k) && env.fault(k) == Fault(false, false, false, false))
    && (forall k :: k in s.source ==> s.source[k].modified.Some? && s.source[k].modified.value <= s.clock)
  }

  lemma MoveWorkers(env: Env, s: Pool, e: Event, k: string)
    requires IsMove(env, e)
    ensures k in Step(env, s, e).workers <==> k in s.workers
  {
    if e.Work? && e.key in s.workers && e.key != k {
      WorkTouchesOnly(env, s, e.key, e.fault, k);
    }
  }

  lemma {:induction false} CycleWorkers(env: Env, s: Pool, es: seq<Event>, k: string)
    requires IsCycle(env, es)
    ensures k in Run(env, s, es).workers <==> k in s.workers
  {
    if es != [] {
      CycleWorkers(env, s, es[..|es| - 1], k);
      MoveWorkers(env, Run(env, s, es[..|es| - 1]), es[|es| - 1], k);
    }
  }

  lemma CleanFileLeft(env: Env, b: Pool, es: seq<Event>, t: Pool, k: string)
    requires AllDone(b.workers) && b.landing == map[] && CleanPool(env, b) && IsCycle(env, es)
    requires t == Run(env, BeginCycle(env, b), es) && SentInvFor(env, t, k) && AllDone(t.workers)
    ensures k in PendingOf(t) <==> k in t.landing || k in t.aborted
  {
    var s := BeginCycle(env, b);
    CycleOwnCopyOnly(env, s, es, k);
    CycleOnTarget(env, s, es, k);
    CycleWorkers(env, s, es, k);
    if k in s.workers {
      CycleTracks(env, s, es, k);
    }
  }

  lemma CycleKeepsSent(env: Env, b: Pool, es: seq<Event>)
    requires SentInv(env, b)
    ensures SentInv(env, Run(env, BeginCycle(env, b), es))
  {
    StepKeepsSent(env, b, NewCycle(PendingOf(b)));
    NotificationsFollowBytes(env, BeginCycle(env, b), es);
  }

  /**
   After a fault-free cycle the files still pending are exactly those whose copy is landing or was
   aborted; off Azure there are none.
   */
  lemma PendingIsUnlanded(env: Env, b: Pool, es: seq<Event>)
    requires SentInv(env, b) && AllDone(b.workers) && b.landing == map[] && CleanPool(env, b)
    requires IsCycle(env, es) && AllDone(Run(env, BeginCycle(env, b), es).workers)
    ensures var t := Run(env, BeginCycle(env, b), es);
      && PendingOf(t) == t.landing.Keys + t.aborted
      && (env.provider != Azure ==> PendingOf(t) == {})
  {
    var t := Run(env, BeginCycle(env, b), es);
    CycleKeepsSent(env, b, es);
    forall k ensures k in PendingOf(t) <==> k in t.landing.Keys + t.aborted {
      assert SentInvFor(env, t, k);
      CleanFileLeft(env, b, es, t, k);
    }
    SentMeans(env, t);
  }

  /** Whatever happens in the cycle from s on, nothing changes. */
  ghost predicate Idle(env: Env, s: Pool) {
    forall es :: IsCycle(env, es) ==> Run(env, s, es) == s
  }

  lemma {:induction false} NothingToDo(env: Env, s: Pool, es: seq<Event>)
    requires s.workers == map[] && s.landing == map[] && IsCycle(env, es)
    ensures Run(env, s, es) == s
  {
    if es != [] {
      NothingToDo(env, s, es[..|es| - 1]);
    }
  }

  lemma OneStepDiffers(env: Env, s: Pool, e: Event)
    requires IsMove(env, e) && Step(env, s, e) != s
    ensures !Idle(env, s)
  {
    assert [] + [e] == [e];
    RunSnoc(env, s, [], e);
    assert IsCycle(env, [e]) && Run(env, s, [e]) != s;
  }

  lemma QueuedIsNotIdle(env: Env, s: Pool, k: string)
    requires k in s.workers && s.workers[k].Queued?
    ensures !Idle(env, s)
  {
    var e := Work(k, env.fault(k));
    assert Step(env, s, e).workers[k] != s.workers[k];
    OneStepDiffers(env, s, e);
  }

  /**
   The cycle after a fault-free one finds nothing to do if and only if no copy is still landing and none
   was aborted.
   */
  lemma NextPoolCycleIdleExactly(env: Env, b: Pool, es: seq<Event>, next: Env)
    requires SentInv(env, b) && AllDone(b.workers) && b.landing == map[] && CleanPool(env, b)
    requires IsCycle(env, es) && AllDone(Run(env, BeginCycle(env, b), es).workers)
    requires next.provider == env.provider
    ensures var t := Run(env, BeginCycle(env, b), es);
      Idle(next, BeginCycle(next, t)) <==> t.landing == map[] && t.aborted == {}
  {
    var t := Run(env, BeginCycle(env, b), es);
    var s := BeginCycle(next, t);
    PendingIsUnlanded(env, b, es);
    if t.landing == map[] && t.aborted == {} {
      assert s.workers == map[];
      forall later | IsCycle(next, later) ensures Run(next, s, later) == s {
        NothingToDo(next, s, later);
      }
    } else {
      assert PendingOf(t) != {} by {
        if t.landing != map[] {
          var k :| k in t.landing;
          assert k in PendingOf(t);
        }
      }
      var k :| k in PendingOf(t);
      QueuedIsNotIdle(next, s, k);
    }
  }

  /**
   A file that is not pending afterwards is in the target byte for byte, unless its gate was unsound from
   the start.
   */
  lemma ClearedIsSettled(env: Env, b: Pool, es: seq<Event>, k: string)
    requires GateInv(b) && UntornFor(b, k) && IsCycle(env, es)
    ensures var t := Run(env, BeginCycle(env, b), es);
      k in t.source && k !in PendingOf(t) ==> Settled(WorldOf(t), k)
  {
    var s := BeginCycle(env, b);
    StepKeepsGate(env, b, NewCycle(PendingOf(b)));
    StepKeepsUntorn(env, b, NewCycle(PendingOf(b)), k);
    GateSoundWithoutOvertaking(env, s, es, k);
  }

  // ---- A send that raised ----

  lemma SentOnlyByWorkers(env: Env, s: Pool, k: string)
    requires SentInv(env, s) && k !in s.workers
    ensures k !in s.sent
  {
    assert SentInvFor(env, s, k);
  }

  /** What the first cycle leaves of a file whose send raised. */
  lemma UnsentLeft(env: Env, b: Pool, es: seq<Event>, t: Pool, key: string)
    requires SentInv(env, b) && AllDone(b.workers) && IsCycle(env, es)
    requires key in PendingOf(b) && NotAfter(b.source, key, b.clock)
    requires t == Run(env, BeginCycle(env, b), es) && SentInvFor(env, t, key)
    requires key in t.workers && t.workers[key] == Done(DoneUnsent)
    ensures env.provider != Other && t.source == b.source
    ensures Modified(t.source, key).Some? && NotAfter(t.source, key, t.clock)
    ensures key in PendingOf(t) <==> !Lands(env, BeginCycle(env, b), es, key)
    ensures key !in b.landing ==> (Lands(env, BeginCycle(env, b), es, key) <==> key !in t.landing && key !in t.aborted)
  {
    var s := BeginCycle(env, b);
    CycleTracks(env, s, es, key);
    CycleOnTarget(env, s, es, key);
    CycleLeavesPendingExactly(env, s, es, key);
    if key !in b.landing {
      CycleOwnCopyOnly(env, s, es, key);
    }
  }

  /**
   A file whose send raised is published by the next fault-free cycle if and only if no copy of it had
   landed when that cycle listed, and none lands before its worker reads the target's time. Unless an
   older copy was under way, the first part says that its copy is still landing or was aborted, which
   off Azure never happens.
   */
  lemma UnsentNotifiedExactly(env: Env, b: Pool, es: seq<Event>, next: Env, later: seq<Event>, key: string)
    requires SentInv(env, b) && AllDone(b.workers) && IsCycle(env, es)
    requires key in PendingOf(b) && NotAfter(b.source, key, b.clock)
    requires var t := Run(env, BeginCycle(env, b), es);
      && AllDone(t.workers) && key in t.workers && t.workers[key] == Done(DoneUnsent)
      && AllDone(Run(next, BeginCycle(next, t), later).workers)
    requires next.provider == env.provider && next.validKey(key) && next.fault(key) == Fault(false, false, false, false)
    requires IsCycle(next, later)
    ensures var t := Run(env, BeginCycle(env, b), es);
      var landed := Lands(env, BeginCycle(env, b), es, key);
      && (key in Run(next, BeginCycle(next, t), later).sent <==>
          !landed && !LandsFirst(next, BeginCycle(next, t), later, key))
      && (key !in b.landing ==> (landed <==> key !in t.landing && key !in t.aborted))
      && (env.provider != Azure ==> landed)
  {
    var t := Run(env, BeginCycle(env, b), es);
    var s := BeginCycle(next, t);
    CycleKeepsSent(env, b, es);
    assert SentInvFor(env, t, key) && SentInvFor(env, b, key);
    UnsentLeft(env, b, es, t, key);
    if key in PendingOf(t) {
      PublishedExactly(next, s, later, key);
    } else {
      SentForProvider(env, next, t);
      CycleKeepsSent(next, t, later);
      CycleWorkers(next, s, later, key);
      SentOnlyByWorkers(next, Run(next, s, later), key);
    }
  }

  lemma SentForProvider(env: Env, next: Env, s: Pool)
    requires SentInv(env, s) && next.provider == env.provider
    ensures SentInv(next, s)
  {
    forall k ensures SentInvFor(next, s, k) && BytesInvFor(s, k) {
      assert SentInvFor(env, s, k);
    }
  }

  /** Cycles that list before they run, on a source that leaves key alone, under any faults. */
  ghost predicate FastCycles(env: Env, s: Pool, es: seq<Event>, key: string) {
    forall i :: 0 <= i < |es| ==> FastMove(Run(env, s, es[..i]), es[i], key)
  }

  predicate FastMove(s: Pool, e: Event, key: string) {
    match e
    case Write(k, _, _) => k != key
    case Remove(k) => k != key
    case NewCycle(pending) => pending == PendingOf(s)
    case _ => true
  }

  /** Cleared by the pre-filter, with no worker that could still copy or publish it. */
  predicate Quiet(s: Pool, key: string) {
    && key in s.source && !NeedsCopy(WorldOf(s), key) && NotAfter(s.source, key, s.clock)
    && (key in s.workers ==> s.workers[key].Done?) && key !in s.sent
  }

  lemma MoveKeepsQuiet(env: Env, s: Pool, e: Event, key: string)
    requires Quiet(s, key) && FastMove(s, e, key)
    ensures Quiet(Step(env, s, e), key)
  {
    if e.Work? && e.key in s.workers && e.key != key {
      WorkTouchesOnly(env, s, e.key, e.fault, key);
    }
  }

  /**
   A file the pre-filter clears, such as one whose send raised after its copy landed, is never published
   by any later fast cycles, whatever fails and whoever writes other files.
   */
  lemma {:induction false} LandedNeverNotified(env: Env, s: Pool, es: seq<Event>, key: string)
    requires Quiet(s, key) && FastCycles(env, s, es, key)
    ensures Quiet(Run(env, s, es), key)
  {
    if es != [] {
      var front := es[..|es| - 1];
      forall i | 0 <= i < |front| ensures FastMove(Run(env, s, front[..i]), front[i], key) {
        assert front[..i] == es[..i] && front[i] == es[i];
      }
      LandedNeverNotified(env, s, front, key);
      MoveKeepsQuiet(env, Run(env, s, front), es[|es| - 1], key);
    }
  }
}
