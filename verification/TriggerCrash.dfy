/**
 At-most-once execution (utils/kafka_trigger.py, execute and _wait_for_trigger)
 over runs in which the pod may crash and restart between any two steps. The
 broker keeps the control log and the committed offset; everything else, the
 last executed id included, is lost with the process.
 */
module TriggerCrash {
  import opened Wrappers
  import opened Seqs
  import opened KafkaTrigger

  datatype Phase =
    | Down
    | Idle
    | Polling(position: nat)
    | Received(offset: nat)
    | Accepted(offset: nat)
    | Ready(offset: nat)
    | Running(offset: nat)

  datatype Pod = Pod(
    log: seq<Message>, committed: nat, phase: Phase, consumerOpen: bool,
    lastRunId: Option<string>, executed: seq<nat>)

  datatype Event =
    | Append(message: Message)
    | Start
    | Subscribe
    | Poll
    | Commit
    | Close
    | RunFn
    | Finish
    | Crash

  /** One step of the pod or its environment; an event that is not enabled does nothing. */
  function Step(me: Identity, s: Pod, e: Event): Pod {
    match e
    case Append(m) => s.(log := s.log + [m])
    case Crash => s.(phase := Down, consumerOpen := false, lastRunId := None)
    case Start => if s.phase.Down? then s.(phase := Idle) else s
    case Subscribe => if s.phase.Idle? then s.(phase := Polling(s.committed), consumerOpen := true) else s
    case Poll =>
      if s.phase.Polling? && s.phase.position < |s.log| then
        // A payload that is not an object raises out of execute, its offset uncommitted.
        if s.log[s.phase.position].NotAnObject? then s.(phase := Down, consumerOpen := false, lastRunId := None)
        else s.(phase := Received(s.phase.position))
      else s
    case Commit =>
      if s.phase.Received? then
        var o := s.phase.offset;
        s.(committed := o + 1, phase := if o < |s.log| && Matches(me, s.log[o]) then Accepted(o) else Polling(o + 1))
      else s
    case Close => if s.phase.Accepted? then s.(phase := Ready(s.phase.offset), consumerOpen := false) else s
    case RunFn =>
      if s.phase.Ready? && s.phase.offset < |s.log| && s.log[s.phase.offset].Request? then
        var t := s.log[s.phase.offset].trigger;
        if s.lastRunId == Some(DedupId(t)) || t.manual then s.(phase := Idle)
        else s.(phase := Running(s.phase.offset), executed := s.executed + [s.phase.offset])
      else s
    case Finish =>
      if s.phase.Running? && s.phase.offset < |s.log| && s.log[s.phase.offset].Request? then
        s.(phase := Idle, lastRunId := Some(DedupId(s.log[s.phase.offset].trigger)))
      else s
  }

  function Run(me: Identity, s: Pod, es: seq<Event>): Pod {
    if es == [] then s else Step(me, Run(me, s, es[..|es| - 1]), es[|es| - 1])
  }

  function Fresh(): Pod {
    Pod([], 0, Down, false, None, [])
  }

  ghost predicate PodInv(me: Identity, s: Pod) {
    && s.committed <= |s.log|
    && (s.consumerOpen <==> s.phase.Polling? || s.phase.Received? || s.phase.Accepted?)
    && (s.phase.Polling? ==> s.phase.position == s.committed)
    && (s.phase.Received? ==> s.phase.offset == s.committed < |s.log| && !s.log[s.phase.offset].NotAnObject?)
    && (s.phase.Accepted? || s.phase.Ready? || s.phase.Running? ==>
          s.phase.offset + 1 == s.committed && Matches(me, s.log[s.phase.offset]))
    && (forall i :: 0 <= i < |s.executed| ==> s.executed[i] < s.committed && Matches(me, s.log[s.executed[i]]))
    && (forall i, j :: 0 <= i < j < |s.executed| ==> s.executed[i] < s.executed[j])
    && (s.phase.Accepted? || s.phase.Ready? ==> forall i :: 0 <= i < |s.executed| ==> s.executed[i] < s.phase.offset)
  }

  lemma StepKeepsPod(me: Identity, s: Pod, e: Event)
    requires PodInv(me, s)
    ensures PodInv(me, Step(me, s, e))
  {
    if e.Append? {
      var s' := Step(me, s, e);
      assert forall i :: 0 <= i < |s.log| ==> s'.log[i] == s.log[i];
    }
  }

  ghost predicate Advanced(s: Pod, t: Pod) {
    s.log <= t.log && s.committed <= t.committed && s.executed <= t.executed
  }

  lemma StepOnlyAdvances(me: Identity, s: Pod, e: Event)
    requires PodInv(me, s)
    ensures Advanced(s, Step(me, s, e))
  {
  }

  lemma AdvancedTwice(s: Pod, t: Pod, u: Pod)
    requires Advanced(s, t) && Advanced(t, u)
    ensures Advanced(s, u)
  {
  }

  /** Over any run the log and the list of executions only grow and the committed offset never goes back. */
  lemma {:induction false} RunOnlyAdvances(me: Identity, s: Pod, es: seq<Event>)
    requires PodInv(me, s)
    ensures PodInv(me, Run(me, s, es)) && Advanced(s, Run(me, s, es))
  {
    if es != [] {
      var before := Run(me, s, es[..|es| - 1]);
      RunOnlyAdvances(me, s, es[..|es| - 1]);
      StepKeepsPod(me, before, es[|es| - 1]);
      StepOnlyAdvances(me, before, es[|es| - 1]);
      AdvancedTwice(s, before, Run(me, s, es));
    }
  }

  /** A trigger starts running only when its offset is already committed and the consumer is closed. */
  lemma RunsAfterCommitAndClose(me: Identity, s: Pod, e: Event)
    requires PodInv(me, s) && Step(me, s, e).executed != s.executed
    ensures e.RunFn? && s.phase.Ready?
    ensures var o := s.phase.offset;
      && Step(me, s, e).executed == s.executed + [o] && o !in s.executed
      && o < s.committed <= |s.log| && !s.consumerOpen && Matches(me, s.log[o])
  {
    var o := s.phase.offset;
    assert Step(me, s, e).executed == s.executed + [o];
  }

  /**
   Over every run with crashes anywhere: each control offset is handed to the
   pipeline at most once, in increasing order, only on a full match, and always
   after it was committed.
   */
  lemma {:induction false} AtMostOnce(me: Identity, es: seq<Event>)
    ensures var s := Run(me, Fresh(), es);
      && PodInv(me, s) && NoDup(s.executed)
      && forall o :: o in s.executed ==> o < s.committed <= |s.log| && Matches(me, s.log[o])
  {
    if es != [] {
      var before := Run(me, Fresh(), es[..|es| - 1]);
      AtMostOnce(me, es[..|es| - 1]);
      StepKeepsPod(me, before, es[|es| - 1]);
    }
  }

  // ---- Repeats within one life of the process ----

  /** The last execution still runs, or its run id is remembered. */
  predicate Remembers(s: Pod)
    requires s.executed != [] && s.executed[|s.executed| - 1] < |s.log|
    requires s.log[s.executed[|s.executed| - 1]].Request?
  {
    var last := s.executed[|s.executed| - 1];
    if s.phase.Running? then s.phase.offset == last else s.lastRunId == Some(RunIdOf(s.log[last].trigger))
  }

  /** Execution i has another run id than the one before it. */
  predicate Differs(s: Pod, i: nat)
    requires 0 < i < |s.executed|
  {
    var a, b := s.executed[i - 1], s.executed[i];
    a < |s.log| && b < |s.log| && s.log[a].Request? && s.log[b].Request?
    && RunIdOf(s.log[a].trigger) != RunIdOf(s.log[b].trigger)
  }

  /** Since the first n executions no trigger ran with the run id of the one before it. */
  ghost predicate NoRepeatSince(me: Identity, s: Pod, n: nat) {
    && n <= |s.executed| && PodInv(me, s)
    && (forall i :: n < i < |s.executed| ==> Differs(s, i))
    && (n < |s.executed| ==> Remembers(s))
  }

  lemma StepRemembers(me: Identity, s: Pod, e: Event)
    requires PodInv(me, s) && s.executed != [] && Remembers(s)
    requires !Step(me, s, e).phase.Down? && Step(me, s, e).executed == s.executed
    ensures Remembers(Step(me, s, e))
  {
  }

  lemma NextRunDiffers(me: Identity, s: Pod, e: Event)
    requires PodInv(me, s) && Step(me, s, e).executed != s.executed
    ensures var t := Step(me, s, e);
      PodInv(me, t) && t.executed != [] && Remembers(t)
      && (s.executed != [] && Remembers(s) ==> Differs(t, |s.executed|))
  {
    StepKeepsPod(me, s, e);
    RunsAfterCommitAndClose(me, s, e);
  }

  lemma StepRepeatsNone(me: Identity, s: Pod, e: Event, n: nat)
    requires NoRepeatSince(me, s, n) && !Step(me, s, e).phase.Down?
    ensures NoRepeatSince(me, Step(me, s, e), n)
  {
    var t := Step(me, s, e);
    StepKeepsPod(me, s, e);
    StepOnlyAdvances(me, s, e);
    forall i | n < i < |s.executed| ensures Differs(t, i) {
      assert Differs(s, i);
    }
    if t.executed != s.executed {
      RunsAfterCommitAndClose(me, s, e);
      NextRunDiffers(me, s, e);
    } else if n < |s.executed| {
      StepRemembers(me, s, e);
    }
  }

  /**
   While the process stays up, two executions in a row have different run ids, a missing one counting
   as "unknown"; only a restart, which forgets the last id, lets the same id run again.
   */
  lemma {:induction false} NoRepeatWhileUp(me: Identity, s: Pod, es: seq<Event>)
    requires PodInv(me, s) && forall k :: 0 < k <= |es| ==> !Run(me, s, es[..k]).phase.Down?
    ensures var t := Run(me, s, es);
      && PodInv(me, t) && |s.executed| <= |t.executed|
      && forall i :: |s.executed| < i < |t.executed| ==> Differs(t, i)
  {
    UpRepeatsNone(me, s, es);
  }

  lemma {:induction false} UpRepeatsNone(me: Identity, s: Pod, es: seq<Event>)
    requires PodInv(me, s) && forall k :: 0 < k <= |es| ==> !Run(me, s, es[..k]).phase.Down?
    ensures NoRepeatSince(me, Run(me, s, es), |s.executed|)
  {
    if es != [] {
      var front := es[..|es| - 1];
      forall k | 0 < k <= |front| ensures !Run(me, s, front[..k]).phase.Down? {
        assert front[..k] == es[..k];
      }
      UpRepeatsNone(me, s, front);
      assert es[..|es|] == es;
      StepRepeatsNone(me, Run(me, s, front), es[|es| - 1], |s.executed|);
    }
  }

  // ---- Which triggers can still run ----

  lemma {:induction false} RunConcat(me: Identity, s: Pod, a: seq<Event>, b: seq<Event>)
    ensures Run(me, s, a + b) == Run(me, Run(me, s, a), b)
  {
    if b == [] {
      assert a + b == a;
    } else {
      assert (a + b)[..|a + b| - 1] == a + b[..|b| - 1];
      RunConcat(me, s, a, b[..|b| - 1]);
    }
  }

  /** o is accepted but has not started, and is not a repeat of the last executed id. */
  predicate InHand(s: Pod, o: nat)
    requires o < |s.log| && s.log[o].Request?
  {
    (s.phase.Accepted? || s.phase.Ready?) && s.phase.offset == o && s.lastRunId != Some(DedupId(s.log[o].trigger))
  }

  /** No message from the committed offset up to o makes the consumer raise. */
  predicate Clear(s: Pod, o: nat)
    requires o < |s.log|
  {
    s.committed <= o && forall j :: s.committed <= j <= o ==> !s.log[j].NotAnObject?
  }

  predicate IsAutomatic(me: Identity, m: Message) {
    Matches(me, m) && !m.trigger.manual
  }

  predicate CanRun(me: Identity, s: Pod, o: nat)
    requires o < |s.log|
  {
    o in s.executed || (IsAutomatic(me, s.log[o]) && (InHand(s, o) || Clear(s, o)))
  }

  lemma StepKeepsHopeless(me: Identity, s: Pod, e: Event, o: nat)
    requires PodInv(me, s) && o < |s.log| && !CanRun(me, s, o)
    ensures o < |Step(me, s, e).log| && !CanRun(me, Step(me, s, e), o)
  {
    var t := Step(me, s, e);
    assert t.log[o] == s.log[o];
    if IsAutomatic(me, s.log[o]) && s.committed <= o {
      var j :| s.committed <= j <= o && s.log[j].NotAnObject?;
      assert t.log[j] == s.log[j] && t.committed <= j;
    }
  }

  lemma {:induction false} HopelessStays(me: Identity, s: Pod, es: seq<Event>, o: nat)
    requires PodInv(me, s) && o < |s.log| && !CanRun(me, s, o)
    ensures PodInv(me, Run(me, s, es)) && o < |Run(me, s, es).log| && !CanRun(me, Run(me, s, es), o)
  {
    if es != [] {
      var before := Run(me, s, es[..|es| - 1]);
      HopelessStays(me, s, es[..|es| - 1], o);
      StepKeepsPod(me, before, es[|es| - 1]);
      StepKeepsHopeless(me, before, es[|es| - 1], o);
    }
  }

  lemma Restarted(me: Identity, s: Pod)
    ensures Run(me, s, [Crash, Start, Subscribe])
         == Pod(s.log, s.committed, Polling(s.committed), true, None, s.executed)
  {
    var es := [Crash, Start, Subscribe];
    assert es[..2][..1] == es[..1] && es[..1][..0] == [];
    assert Run(me, s, es[..1]) == Pod(s.log, s.committed, Down, false, None, s.executed);
    assert Run(me, s, es[..2]) == Pod(s.log, s.committed, Idle, false, None, s.executed);
  }

  lemma NextCommitted(me: Identity, s: Pod)
    requires s.phase == Polling(s.committed) && s.committed < |s.log| && !s.log[s.committed].NotAnObject?
    ensures var o := s.committed;
      Run(me, s, [Poll, Commit])
      == s.(committed := o + 1, phase := if Matches(me, s.log[o]) then Accepted(o) else Polling(o + 1))
  {
    assert [Poll, Commit][..1] == [Poll] && [Poll][..0] == [];
    assert Run(me, s, [Poll]) == s.(phase := Received(s.committed));
  }

  /** A restart reads and commits the next message. */
  lemma OneMoreCommitted(me: Identity, s: Pod)
    requires PodInv(me, s) && s.committed < |s.log| && !s.log[s.committed].NotAnObject?
    ensures var o := s.committed;
      Run(me, s, [Crash, Start, Subscribe, Poll, Commit])
      == Pod(s.log, o + 1, if Matches(me, s.log[o]) then Accepted(o) else Polling(o + 1), true, None, s.executed)
  {
    assert [Crash, Start, Subscribe] + [Poll, Commit] == [Crash, Start, Subscribe, Poll, Commit];
    RunConcat(me, s, [Crash, Start, Subscribe], [Poll, Commit]);
    Restarted(me, s);
    NextCommitted(me, Run(me, s, [Crash, Start, Subscribe]));
  }

  /** From the acceptance on, closing and running hands the trigger to the pipeline. */
  lemma InHandRuns(me: Identity, s: Pod, o: nat) returns (es: seq<Event>)
    requires PodInv(me, s) && o < |s.log| && IsAutomatic(me, s.log[o]) && InHand(s, o)
    ensures o in Run(me, s, es).executed
  {
    var ready := s.(phase := Ready(o), consumerOpen := false);
    var done := ready.(phase := Running(o), executed := s.executed + [o]);
    assert Step(me, ready, RunFn) == done && done.executed[|s.executed|] == o;
    if s.phase.Ready? {
      es := [RunFn];
      assert es[..0] == [] && s == ready;
    } else {
      es := [Close, RunFn];
      assert es[..1] == [Close] && es[..1][..0] == [];
      assert Run(me, s, es[..1]) == ready;
    }
  }

  lemma {:induction false} ClearRuns(me: Identity, s: Pod, o: nat) returns (es: seq<Event>)
    requires PodInv(me, s) && o < |s.log| && IsAutomatic(me, s.log[o]) && Clear(s, o)
    ensures o in Run(me, s, es).executed
    decreases o - s.committed
  {
    var restart := [Crash, Start, Subscribe, Poll, Commit];
    var t := Run(me, s, restart);
    OneMoreCommitted(me, s);
    RunOnlyAdvances(me, s, restart);
    var rest;
    if s.committed == o {
      rest := InHandRuns(me, t, o);
    } else {
      rest := ClearRuns(me, t, o);
    }
    RunConcat(me, s, restart, rest);
    es := restart + rest;
  }

  /**
   From any reachable state, some continuation runs an offset if and only if it ran already, or it
   is a matching automatic trigger that is in hand and no repeat, or that lies ahead of the committed
   offset with nothing before it that makes the consumer raise.
   */
  lemma RunsEventuallyExactly(me: Identity, s: Pod, o: nat)
    requires PodInv(me, s) && o < |s.log|
    ensures (exists es :: o in Run(me, s, es).executed) <==> CanRun(me, s, o)
  {
    if exists es :: o in Run(me, s, es).executed {
      var es :| o in Run(me, s, es).executed;
      if !CanRun(me, s, o) {
        HopelessStays(me, s, es, o);
      }
    }
    if CanRun(me, s, o) {
      var es: seq<Event>;
      if o in s.executed {
        es := [];
      } else if InHand(s, o) {
        es := InHandRuns(me, s, o);
      } else {
        es := ClearRuns(me, s, o);
      }
      assert o in Run(me, s, es).executed;
    }
  }

  /** So a crash anywhere between a trigger's commit and its start loses it for good. */
  lemma CrashAfterCommitLosesTrigger(me: Identity, s: Pod, o: nat, later: seq<Event>)
    requires PodInv(me, s) && (s.phase == Accepted(o) || s.phase == Ready(o))
    ensures o !in Run(me, Step(me, s, Crash), later).executed
  {
    StepKeepsPod(me, s, Crash);
    HopelessStays(me, Step(me, s, Crash), later, o);
  }

  lemma StepStaysBlocked(me: Identity, s: Pod, e: Event)
    requires PodInv(me, s) && s.committed < |s.log| && s.log[s.committed].NotAnObject?
    ensures Step(me, s, e).committed == s.committed
  {
  }

  /** A payload that is not an object is never committed, and nothing at or behind it ever runs. */
  lemma {:induction false} NonObjectBlocksForever(me: Identity, s: Pod, es: seq<Event>)
    requires PodInv(me, s) && s.committed < |s.log| && s.log[s.committed].NotAnObject?
    ensures var t := Run(me, s, es);
      && PodInv(me, t) && s.log <= t.log && t.committed == s.committed
      && forall o :: o in t.executed ==> o < s.committed
  {
    RunOnlyAdvances(me, s, es);
    if es != [] {
      NonObjectBlocksForever(me, s, es[..|es| - 1]);
      StepStaysBlocked(me, Run(me, s, es[..|es| - 1]), es[|es| - 1]);
    }
  }
}
