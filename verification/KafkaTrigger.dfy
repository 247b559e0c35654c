/**
 The control and status protocol of utils/kafka_trigger.py: waiting for a
 matching trigger, executing it, publishing its status, and the sensor that
 looks for that status. The control and status topics have one partition, so a
 topic is a sequence and an offset is an index.
 */
module KafkaTrigger {
  import opened Wrappers

  /** A control message that is a JSON object. `runId` is None when the key is absent. */
  datatype Trigger = Trigger(
    stage: string, pipelineType: string, role: string, product: string,
    runId: Option<string>, manual: bool)

  /** Undecodable bytes; decodable JSON that is not an object; an object. */
  datatype Message = Garbled | NotAnObject | Request(trigger: Trigger)

  /** What one backend was started for. */
  datatype Identity = Identity(stage: string, pipelineType: string, role: string, product: string)

  predicate Matches(me: Identity, m: Message) {
    && m.Request?
    && m.trigger.stage == me.stage
    && m.trigger.pipelineType == me.pipelineType
    && m.trigger.role == me.role
    && m.trigger.product == me.product
  }

  /** build_trigger_message. */
  function BuildTrigger(target: Identity, runId: string, manual: bool): Message {
    Request(Trigger(target.stage, target.pipelineType, target.role, target.product, Some(runId), manual))
  }

  datatype Kind = Completed | Failed | Skipped

  datatype Status = Status(stage: string, product: string, runId: string, kind: Kind)

  /** The id compared with the last one executed: "unknown" when the trigger has none. */
  function DedupId(t: Trigger): string {
    if t.runId.Some? then t.runId.value else "unknown"
  }

  /** Reading one message: smooth, a poll that raises, a commit that raises unrecorded or although recorded. */
  datatype Reading = Smooth | PollRaises | CommitLost | CommitKept

  /** What the environment decides at one offset: its reading, the pipeline's outcome and each publish. */
  datatype Fate = Fate(reading: Reading, freshId: string, runOk: bool, firstSend: bool, secondSend: bool)

  datatype WaitResult = Found(offset: nat, trigger: Trigger) | Exhausted | Crashed

  /** The message at o ends the wait: by matching, by making the decoder raise, or by not being read smoothly. */
  predicate Stops(me: Identity, log: seq<Message>, o: nat, fate: nat -> Fate)
    requires o < |log|
  {
    Matches(me, log[o]) || log[o].NotAnObject? || !fate(o).reading.Smooth?
  }

  /** The first offset from `from` on that ends the wait. */
  function NextStop(me: Identity, log: seq<Message>, from: nat, fate: nat -> Fate): (r: nat)
    requires from <= |log|
    ensures from <= r <= |log|
    ensures r < |log| ==> Stops(me, log, r, fate)
    ensures forall i :: from <= i < r ==> !Stops(me, log, i, fate)
    decreases |log| - from
  {
    if from == |log| || Stops(me, log, from, fate) then from
    else NextStop(me, log, from + 1, fate)
  }

  /** A stop that is a trigger to handle, not an exception. */
  predicate Handed(me: Identity, log: seq<Message>, o: nat, fate: nat -> Fate)
    requires o < |log|
  {
    Matches(me, log[o]) && fate(o).reading.Smooth?
  }

  /** Where an exception at o leaves the committed offset: past o only if a commit was tried and recorded. */
  function CommittedByCrash(log: seq<Message>, o: nat, fate: nat -> Fate): nat
    requires o < |log|
  {
    if fate(o).reading.CommitKept? && !log[o].NotAnObject? then o + 1 else o
  }

  class Backend {
    const me: Identity
    var lastRunId: Option<string>
    var running: bool
    var committed: nat
    var consumerOpen: bool
    var executed: seq<nat>
    var statuses: seq<Status>

    constructor (me: Identity, committed: nat)
      ensures this.me == me && this.committed == committed
      ensures lastRunId == None && !running && !consumerOpen && executed == [] && statuses == []
    {
      this.me, this.committed := me, committed;
      lastRunId, running, consumerOpen, executed, statuses := None, false, false, [], [];
    }

    /**
     Poll, filter, commit, close. Exhausted stands for a wait that is still going on when the log
     has no more messages; Crashed for an exception: a poll, a commit, or the AttributeError of a
     payload that is not an object.
     */
    method WaitForTrigger(log: seq<Message>, fate: nat -> Fate) returns (r: WaitResult)
      requires committed <= |log|
      modifies this`committed, this`consumerOpen
      ensures !consumerOpen
      ensures var stop := NextStop(me, log, old(committed), fate);
        if stop == |log| then r == Exhausted && committed == stop
        else if Handed(me, log, stop, fate) then r == Found(stop, log[stop].trigger) && committed == stop + 1
        else
          && r == Crashed
          && committed == if fate(stop).reading.CommitKept? && !log[stop].NotAnObject? then stop + 1 else stop
    {
      consumerOpen := true;
      var at := committed;
      while at < |log|
        invariant at == committed <= |log|
        invariant NextStop(me, log, at, fate) == NextStop(me, log, old(committed), fate)
        decreases |log| - at
      {
        var msg, reading := log[at], fate(at).reading;
        if reading.PollRaises? || msg.NotAnObject? {
          consumerOpen := false;
          return Crashed;
        }
        if reading != CommitLost {
          committed := at + 1;
        }
        if reading != Smooth {
          consumerOpen := false;
          return Crashed;
        }
        if Matches(me, msg) {
          consumerOpen := false;
          return Found(at, msg.trigger);
        }
        at := at + 1;
      }
      consumerOpen := false;
      r := Exhausted;
    }

    /**
     Handle one trigger. `raised` says that a publish error left execute's loop; the
     in-flight flag is down again on every way out.
     */
    method ExecutePipeline(offset: nat, trigger: Trigger, fate: Fate) returns (raised: bool)
      modifies this`lastRunId, this`running, this`executed, this`statuses
      ensures var h := Handle(me, old(lastRunId), trigger, fate);
        if old(running) then
          && lastRunId == old(lastRunId) && executed == old(executed) && running
          && raised == !fate.firstSend
          && statuses == old(statuses) + if raised then [] else [StatusFor(me, trigger, fate, Failed)]
        else
          && !running && lastRunId == h.last && raised == h.raised
          && executed == old(executed) + (if h.ran then [offset] else [])
          && statuses == old(statuses) + h.published
    {
      var runId := DedupId(trigger);
      if running {
        raised := Publish(trigger, fate, Failed, fate.firstSend);
        return;
      }
      if Some(runId) == lastRunId {
        raised := Publish(trigger, fate, Completed, fate.firstSend);
        return;
      }
      if trigger.manual {
        raised := Publish(trigger, fate, Skipped, fate.firstSend);
        return;
      }
      running := true;
      executed := executed + [offset];
      raised := !fate.runOk;
      if !raised {
        lastRunId := Some(runId);
        raised := Publish(trigger, fate, Completed, fate.firstSend);
        if raised {
          raised := Publish(trigger, fate, Failed, fate.secondSend);
        }
      } else {
        lastRunId := Some(runId);
        raised := Publish(trigger, fate, Failed, fate.firstSend);
      }
      running := false;
    }

    method Publish(trigger: Trigger, fate: Fate, kind: Kind, sends: bool) returns (raised: bool)
      modifies this`statuses
      ensures raised == !sends
      ensures statuses == old(statuses) + if sends then [StatusFor(me, trigger, fate, kind)] else []
    {
      raised := !sends;
      if sends {
        statuses := statuses + [StatusFor(me, trigger, fate, kind)];
      }
    }

    /** One round of execute's loop: wait, then handle what was found. */
    method Turn(log: seq<Message>, fate: nat -> Fate) returns (next: Next, ghost ran: seq<nat>, ghost told: seq<Status>)
      requires committed <= |log| && !running
      modifies this
      ensures old(committed) <= committed <= |log| && !running && !consumerOpen
      ensures next == Again ==> old(committed) < committed
      ensures executed == old(executed) + ran && statuses == old(statuses) + told
      ensures IsTurn(me, log, fate, old(committed), old(lastRunId), next, committed, lastRunId, ran, told)
    {
      ran, told := [], [];
      ghost var from, last := committed, lastRunId;
      var found := WaitForTrigger(log, fate);
      match found {
        case Exhausted =>
          next := Waiting;
          StoppedTurn(me, log, fate, from, last, next, committed);
        case Crashed =>
          next := Dead;
          StoppedTurn(me, log, fate, from, last, next, committed);
        case Found(offset, trigger) =>
          ghost var h := Handle(me, last, trigger, fate(offset));
          var raised := ExecutePipeline(offset, trigger, fate(offset));
          ran, told := if h.ran then [offset] else [], h.published;
          next := if raised then Dead else Again;
          HandledTurn(me, log, fate, from, last, offset, next, committed, lastRunId, ran, told);
      }
    }

    /** execute's loop over a control log, until the log has no more triggers or something raises. */
    method Execute(log: seq<Message>, fate: nat -> Fate) returns (alive: bool)
      requires committed <= |log| && !running
      modifies this
      ensures !running && !consumerOpen
      ensures After(old(executed), old(statuses), HandleLog(me, log, old(committed), old(lastRunId), fate))
           == Handling(committed, lastRunId, executed, statuses, alive)
    {
      var next := Again;
      consumerOpen := false;
      while next == Again
        invariant committed <= |log| && !running && !consumerOpen
        invariant After(old(executed), old(statuses), HandleLog(me, log, old(committed), old(lastRunId), fate))
          == After(executed, statuses, if next == Again then HandleLog(me, log, committed, lastRunId, fate)
                                       else Handling(committed, lastRunId, [], [], next == Waiting))
        decreases next == Again, |log| - committed
      {
        ghost var executed0, statuses0 := executed, statuses;
        ghost var ran, told;
        next, ran, told := Turn(log, fate);
        AfterTwice(executed0, statuses0, ran, told,
                   if next == Again then HandleLog(me, log, committed, lastRunId, fate)
                   else Handling(committed, lastRunId, [], [], next == Waiting));
      }
      alive := next == Waiting;
    }
  }

  /** How a round of the loop ended: handled a trigger, still waiting, or left by an exception. */
  datatype Next = Again | Waiting | Dead

  function StatusFor(me: Identity, t: Trigger, fate: Fate, kind: Kind): Status {
    Status(me.stage, me.product, if t.runId.Some? then t.runId.value else fate.freshId, kind)
  }

  /** Effect of one trigger handled with no pipeline in flight. */
  datatype Handled = Handled(ran: bool, last: Option<string>, published: seq<Status>, raised: bool)

  function Handle(me: Identity, last: Option<string>, t: Trigger, fate: Fate): Handled {
    var id := Some(DedupId(t));
    if last == id || t.manual then
      var kind := if last == id then Completed else Skipped;
      Handled(false, last, if fate.firstSend then [StatusFor(me, t, fate, kind)] else [], !fate.firstSend)
    else if fate.runOk && fate.firstSend then Handled(true, id, [StatusFor(me, t, fate, Completed)], false)
    else
      var sent := if fate.runOk then fate.secondSend else fate.firstSend;
      Handled(true, id, if sent then [StatusFor(me, t, fate, Failed)] else [], !sent)
  }

  datatype Handling = Handling(
    committed: nat, last: Option<string>, executed: seq<nat>, statuses: seq<Status>, alive: bool)

  function HandleLog(me: Identity, log: seq<Message>, from: nat, last: Option<string>, fate: nat -> Fate): (r: Handling)
    requires from <= |log|
    decreases |log| - from
  {
    var stop := NextStop(me, log, from, fate);
    if stop == |log| then Handling(stop, last, [], [], true)
    else if !Handed(me, log, stop, fate) then Handling(CommittedByCrash(log, stop, fate), last, [], [], false)
    else
      var h := Handle(me, last, log[stop].trigger, fate(stop));
      var ran := if h.ran then [stop] else [];
      if h.raised then Handling(stop + 1, h.last, ran, h.published, false)
      else
        var rest := HandleLog(me, log, stop + 1, h.last, fate);
        rest.(executed := ran + rest.executed, statuses := h.published + rest.statuses)
  }

  /** What handling amounts to when these triggers ran and these statuses went out before it. */
  function After(ran: seq<nat>, told: seq<Status>, h: Handling): Handling {
    h.(executed := ran + h.executed, statuses := told + h.statuses)
  }

  lemma AfterTwice(ran: seq<nat>, told: seq<Status>, ran': seq<nat>, told': seq<Status>, h: Handling)
    ensures After(ran, told, After(ran', told', h)) == After(ran + ran', told + told', h)
  {
    assert ran + (ran' + h.executed) == ran + ran' + h.executed;
    assert told + (told' + h.statuses) == told + told' + h.statuses;
  }

  /** A round from one committed offset and last id to the next: what it ran and told, and the rest of the log. */
  ghost predicate IsTurn(
    me: Identity, log: seq<Message>, fate: nat -> Fate, from: nat, last: Option<string>,
    next: Next, committed: nat, lastRunId: Option<string>, ran: seq<nat>, told: seq<Status>)
    requires from <= |log| && committed <= |log|
  {
    HandleLog(me, log, from, last, fate)
    == After(ran, told, if next == Again then HandleLog(me, log, committed, lastRunId, fate)
                        else Handling(committed, lastRunId, [], [], next == Waiting))
  }

  /** A wait that ended without a trigger ends the handling. */
  lemma {:induction false} StoppedTurn(
    me: Identity, log: seq<Message>, fate: nat -> Fate, from: nat, last: Option<string>, next: Next, committed: nat)
    requires from <= |log| && committed <= |log|
    requires var stop := NextStop(me, log, from, fate);
      if stop == |log| then next == Waiting && committed == stop
      else !Handed(me, log, stop, fate) && next == Dead && committed == CommittedByCrash(log, stop, fate)
    ensures IsTurn(me, log, fate, from, last, next, committed, last, [], [])
  {
  }

  /** A wait that found a trigger is followed by its handling. */
  lemma {:induction false} HandledTurn(
    me: Identity, log: seq<Message>, fate: nat -> Fate, from: nat, last: Option<string>, stop: nat,
    next: Next, committed: nat, lastRunId: Option<string>, ran: seq<nat>, told: seq<Status>)
    requires from <= |log| && stop == NextStop(me, log, from, fate) < |log| && Handed(me, log, stop, fate)
    requires committed == stop + 1
    requires var h := Handle(me, last, log[stop].trigger, fate(stop));
      && next == (if h.raised then Dead else Again) && lastRunId == h.last
      && ran == (if h.ran then [stop] else []) && told == h.published
    ensures IsTurn(me, log, fate, from, last, next, committed, lastRunId, ran, told)
  {
  }

  /** The run id a trigger is known by: "unknown" stands in for a missing one. */
  function RunIdOf(t: Trigger): string {
    match t.runId
    case None => "unknown"
    case Some(id) => id
  }

  /**
   What one trigger comes to, whatever its sends do: it runs unless it is manual or repeats the last run id;
   it gets one status, which says what became of it, unless a send raises, twice over after a run that went
   well; then the backend dies with none.
   */
  lemma OneStatusUnlessRaised(me: Identity, last: Option<string>, t: Trigger, fate: Fate)
    ensures var h := Handle(me, last, t, fate);
      |h.published| == if h.raised then 0 else 1
    ensures var h, repeats := Handle(me, last, t, fate), last == Some(RunIdOf(t));
      && (h.ran <==> !repeats && !t.manual) && h.last == (if h.ran then Some(RunIdOf(t)) else last)
      && (!h.raised ==>
            var st := h.published[0];
            && st.stage == me.stage && st.product == me.product
            && st.runId == (if t.runId.Some? then t.runId.value else fate.freshId)
            && st.kind == if repeats then Completed
                          else if t.manual then Skipped
                          else if fate.runOk && fate.firstSend then Completed
                          else Failed)
    ensures Handle(me, last, t, fate).raised <==>
      !fate.firstSend && (last == Some(DedupId(t)) || t.manual || !fate.runOk || !fate.secondSend)
  {
  }

  // ---- Crash-free handling is a fold ----

  function MatchingOffsets(me: Identity, log: seq<Message>, from: nat): seq<nat>
    requires from <= |log|
    decreases |log| - from
  {
    if from == |log| then []
    else (if Matches(me, log[from]) then [from] else []) + MatchingOffsets(me, log, from + 1)
  }

  ghost predicate AllMatch(me: Identity, log: seq<Message>, offsets: seq<nat>) {
    forall i :: 0 <= i < |offsets| ==> offsets[i] < |log| && Matches(me, log[offsets[i]])
  }

  lemma {:induction false} MatchingMembers(me: Identity, log: seq<Message>, from: nat)
    requires from <= |log|
    ensures forall o :: o in MatchingOffsets(me, log, from) <==> from <= o < |log| && Matches(me, log[o])
    decreases |log| - from
  {
    if from < |log| {
      MatchingMembers(me, log, from + 1);
      var head := if Matches(me, log[from]) then [from] else [];
      assert MatchingOffsets(me, log, from) == head + MatchingOffsets(me, log, from + 1);
    }
  }

  lemma MatchingFrom(me: Identity, log: seq<Message>, from: nat)
    requires from <= |log|
    ensures AllMatch(me, log, MatchingOffsets(me, log, from))
  {
    MatchingMembers(me, log, from);
    var offsets := MatchingOffsets(me, log, from);
    forall i | 0 <= i < |offsets| ensures offsets[i] < |log| && Matches(me, log[offsets[i]]) {
      assert offsets[i] in offsets;
    }
  }

  /** The offsets are listed in order, each once. */
  lemma {:induction false} MatchingAscends(me: Identity, log: seq<Message>, from: nat, i: nat, j: nat)
    requires from <= |log| && i < j < |MatchingOffsets(me, log, from)|
    ensures MatchingOffsets(me, log, from)[i] < MatchingOffsets(me, log, from)[j]
    decreases |log| - from
  {
    var rest := MatchingOffsets(me, log, from + 1);
    if !Matches(me, log[from]) {
      MatchingAscends(me, log, from + 1, i, j);
    } else if i > 0 {
      MatchingAscends(me, log, from + 1, i - 1, j - 1);
    } else {
      MatchingMembers(me, log, from + 1);
      assert rest[j - 1] in rest;
    }
  }

  lemma {:induction false} MatchingSkips(me: Identity, log: seq<Message>, from: nat, stop: nat)
    requires from <= stop <= |log| && forall i :: from <= i < stop ==> !Matches(me, log[i])
    ensures MatchingOffsets(me, log, from) == MatchingOffsets(me, log, stop)
    decreases stop - from
  {
    if from < stop {
      MatchingSkips(me, log, from + 1, stop);
    }
  }

  /** The id of the last automatic trigger among the given offsets. */
  function LastAutomatic(log: seq<Message>, offsets: seq<nat>): Option<string>
    requires forall i :: 0 <= i < |offsets| ==> offsets[i] < |log| && log[offsets[i]].Request?
  {
    if offsets == [] then None
    else
      var t := log[offsets[|offsets| - 1]].trigger;
      if !t.manual then Some(DedupId(t)) else LastAutomatic(log, offsets[..|offsets| - 1])
  }

  /** The status of the i-th matching trigger, read off the log without replaying the backend. */
  function KindOf(log: seq<Message>, offsets: seq<nat>, i: nat, fate: nat -> Fate): Kind
    requires i < |offsets|
    requires forall j :: 0 <= j < |offsets| ==> offsets[j] < |log| && log[offsets[j]].Request?
  {
    var t := log[offsets[i]].trigger;
    if LastAutomatic(log, offsets[..i]) == Some(DedupId(t)) then Completed
    else if t.manual then Skipped
    else if fate(offsets[i]).runOk then Completed
    else Failed
  }

  /** The triggers that run: automatic ones whose id is not that of the automatic one before. */
  predicate Runs(log: seq<Message>, offsets: seq<nat>, i: nat)
    requires i < |offsets|
    requires forall j :: 0 <= j < |offsets| ==> offsets[j] < |log| && log[offsets[j]].Request?
  {
    var t := log[offsets[i]].trigger;
    !t.manual && LastAutomatic(log, offsets[..i]) != Some(DedupId(t))
  }

  function RunOffsets(log: seq<Message>, offsets: seq<nat>, n: nat): seq<nat>
    requires n <= |offsets|
    requires forall j :: 0 <= j < |offsets| ==> offsets[j] < |log| && log[offsets[j]].Request?
  {
    if n == 0 then []
    else RunOffsets(log, offsets, n - 1) + if Runs(log, offsets, n - 1) then [offsets[n - 1]] else []
  }

  function StatusesOf(me: Identity, log: seq<Message>, offsets: seq<nat>, n: nat, fate: nat -> Fate): (r: seq<Status>)
    requires n <= |offsets|
    requires forall j :: 0 <= j < |offsets| ==> offsets[j] < |log| && log[offsets[j]].Request?
    ensures |r| == n
  {
    seq(n, i requires 0 <= i < n =>
      StatusFor(me, log[offsets[i]].trigger, fate(offsets[i]), KindOf(log, offsets, i, fate)))
  }

  ghost predicate Quiet(log: seq<Message>, fate: nat -> Fate) {
    && (forall m :: m in log ==> !m.NotAnObject?)
    && (forall o :: fate(o).firstSend && fate(o).reading.Smooth?)
  }

  lemma HandleByPosition(
    me: Identity, log: seq<Message>, offsets: seq<nat>, n: nat, last: Option<string>, fate: nat -> Fate)
    requires n < |offsets| && AllMatch(me, log, offsets) && fate(offsets[n]).firstSend
    requires last == LastAutomatic(log, offsets[..n])
    ensures var t, f := log[offsets[n]].trigger, fate(offsets[n]);
      Handle(me, last, t, f)
      == Handled(
        Runs(log, offsets, n), LastAutomatic(log, offsets[..n + 1]),
        [StatusFor(me, t, f, KindOf(log, offsets, n, fate))], false)
  {
    assert offsets[..n + 1][..n] == offsets[..n];
  }

  lemma StatusesGrow(me: Identity, log: seq<Message>, offsets: seq<nat>, n: nat, fate: nat -> Fate)
    requires n < |offsets| && AllMatch(me, log, offsets)
    ensures StatusesOf(me, log, offsets, n + 1, fate)
         == StatusesOf(me, log, offsets, n, fate)
          + [StatusFor(me, log[offsets[n]].trigger, fate(offsets[n]), KindOf(log, offsets, n, fate))]
  {
  }

  /** What handling all the matching triggers amounts to, after the first n of them. */
  ghost predicate Completes(me: Identity, log: seq<Message>, offsets: seq<nat>, n: nat, h: Handling, fate: nat -> Fate)
    requires n <= |offsets| && AllMatch(me, log, offsets)
  {
    After(RunOffsets(log, offsets, n), StatusesOf(me, log, offsets, n, fate), h)
    == Handling(|log|, h.last, RunOffsets(log, offsets, |offsets|), StatusesOf(me, log, offsets, |offsets|, fate), true)
  }

  lemma CompletesOneMore(
    me: Identity, log: seq<Message>, offsets: seq<nat>, n: nat, ran: seq<nat>, told: seq<Status>, rest: Handling,
    fate: nat -> Fate)
    requires n < |offsets| && AllMatch(me, log, offsets)
    requires RunOffsets(log, offsets, n + 1) == RunOffsets(log, offsets, n) + ran
    requires StatusesOf(me, log, offsets, n + 1, fate) == StatusesOf(me, log, offsets, n, fate) + told
    requires Completes(me, log, offsets, n + 1, rest, fate)
    ensures Completes(me, log, offsets, n, After(ran, told, rest), fate)
  {
    AfterTwice(RunOffsets(log, offsets, n), StatusesOf(me, log, offsets, n, fate), ran, told, rest);
  }

  lemma RunsGrow(me: Identity, log: seq<Message>, offsets: seq<nat>, n: nat)
    requires n < |offsets| && AllMatch(me, log, offsets)
    ensures RunOffsets(log, offsets, n + 1)
         == RunOffsets(log, offsets, n) + (if Runs(log, offsets, n) then [offsets[n]] else [])
  {
  }

  /** The log from `from` on, when its first n matching triggers lie before `from` and were handled. */
  ghost predicate CompletesFrom(
    me: Identity, log: seq<Message>, offsets: seq<nat>, from: nat, n: nat, fate: nat -> Fate)
    requires from <= |log| && n <= |offsets| && AllMatch(me, log, offsets)
  {
    Completes(me, log, offsets, n, HandleLog(me, log, from, LastAutomatic(log, offsets[..n]), fate), fate)
  }

  /** Handling the n-th matching trigger, told by its position in the log; m is the next position. */
  lemma {:induction false} HandledAt(
    me: Identity, log: seq<Message>, offsets: seq<nat>, from: nat, n: nat, after: nat, m: nat, fate: nat -> Fate)
    requires from <= |log| && n < |offsets| && AllMatch(me, log, offsets) && fate(offsets[n]).firstSend
    requires NextStop(me, log, from, fate) == offsets[n] && Handed(me, log, offsets[n], fate)
    requires after == offsets[n] + 1 && m == n + 1
    ensures var o := offsets[n];
      HandleLog(me, log, from, LastAutomatic(log, offsets[..n]), fate)
      == After(if Runs(log, offsets, n) then [o] else [],
               [StatusFor(me, log[o].trigger, fate(o), KindOf(log, offsets, n, fate))],
               HandleLog(me, log, after, LastAutomatic(log, offsets[..m]), fate))
  {
    var o, last, lastNow := offsets[n], LastAutomatic(log, offsets[..n]), LastAutomatic(log, offsets[..m]);
    HandleByPosition(me, log, offsets, n, last, fate);
    HandledTurn(me, log, fate, from, last, o, Again, after, lastNow, if Runs(log, offsets, n) then [o] else [],
                [StatusFor(me, log[o].trigger, fate(o), KindOf(log, offsets, n, fate))]);
  }

  /** The n-th matching trigger handled, and then the rest of the log. */
  lemma {:induction false} HandledNext(
    me: Identity, log: seq<Message>, offsets: seq<nat>, from: nat, n: nat, after: nat, m: nat, fate: nat -> Fate)
    requires from <= |log| && n < |offsets| && AllMatch(me, log, offsets) && fate(offsets[n]).firstSend
    requires NextStop(me, log, from, fate) == offsets[n] && Handed(me, log, offsets[n], fate)
    requires after == offsets[n] + 1 && m == n + 1 && CompletesFrom(me, log, offsets, after, m, fate)
    ensures CompletesFrom(me, log, offsets, from, n, fate)
  {
    var ran := if Runs(log, offsets, n) then [offsets[n]] else [];
    var told := [StatusFor(me, log[offsets[n]].trigger, fate(offsets[n]), KindOf(log, offsets, n, fate))];
    RunsGrow(me, log, offsets, n);
    StatusesGrow(me, log, offsets, n, fate);
    CompletesOneMore(
      me, log, offsets, n, ran, told, HandleLog(me, log, after, LastAutomatic(log, offsets[..m]), fate), fate);
    HandledAt(me, log, offsets, from, n, after, m, fate);
  }

  lemma {:induction false} NothingLeft(
    me: Identity, log: seq<Message>, offsets: seq<nat>, from: nat, n: nat, fate: nat -> Fate)
    requires from <= |log| && AllMatch(me, log, offsets) && NextStop(me, log, from, fate) == |log| && n == |offsets|
    ensures CompletesFrom(me, log, offsets, from, n, fate)
  {
    assert RunOffsets(log, offsets, n) + [] == RunOffsets(log, offsets, n);
  }

  /** Handling the log from the n-th matching trigger on, when the first n were handled. */
  lemma {:induction false} HandledFrom(
    me: Identity, log: seq<Message>, offsets: seq<nat>, from: nat, n: nat, fate: nat -> Fate)
    requires from <= |log| && n <= |offsets| && Quiet(log, fate)
    requires AllMatch(me, log, offsets) && MatchingOffsets(me, log, from) == offsets[n..]
    ensures CompletesFrom(me, log, offsets, from, n, fate)
    decreases |log| - from
  {
    StopIsNext(me, log, offsets, from, n, fate);
    if NextStop(me, log, from, fate) == |log| {
      NothingLeft(me, log, offsets, from, n, fate);
    } else {
      var after, m := offsets[n] + 1, n + 1;
      HandledFrom(me, log, offsets, after, m, fate);
      HandledNext(me, log, offsets, from, n, after, m, fate);
    }
  }

  lemma StopIsNext(me: Identity, log: seq<Message>, offsets: seq<nat>, from: nat, n: nat, fate: nat -> Fate)
    requires from <= |log| && n <= |offsets| && Quiet(log, fate)
    requires MatchingOffsets(me, log, from) == offsets[n..]
    ensures var stop := NextStop(me, log, from, fate);
      if stop == |log| then n == |offsets|
      else
        && Handed(me, log, stop, fate) && n < |offsets| && offsets[n] == stop
        && MatchingOffsets(me, log, stop + 1) == offsets[n + 1..]
  {
    var stop := NextStop(me, log, from, fate);
    forall i | from <= i < stop ensures !Matches(me, log[i]) {
      assert !Stops(me, log, i, fate);
    }
    MatchingSkips(me, log, from, stop);
    if stop < |log| {
      assert log[stop] in log;
      assert offsets[n..] == [stop] + MatchingOffsets(me, log, stop + 1);
      assert offsets[n..][1..] == offsets[n + 1..];
    }
  }

  /**
   With no poll, commit or send raising and no malformed object, the statuses answer the matching
   triggers one to one and in order, each decided by the log alone; the triggers
   run are the automatic ones with consecutive repeats of an id collapsed; and
   every offset is committed.
   */
  lemma HandlingIsAFold(me: Identity, log: seq<Message>, fate: nat -> Fate)
    requires Quiet(log, fate)
    ensures var h, offsets := HandleLog(me, log, 0, None, fate), MatchingOffsets(me, log, 0);
      && AllMatch(me, log, offsets)
      && h.alive && h.committed == |log|
      && h.statuses == StatusesOf(me, log, offsets, |offsets|, fate)
      && h.executed == RunOffsets(log, offsets, |offsets|)
  {
    MatchingFrom(me, log, 0);
    var offsets := MatchingOffsets(me, log, 0);
    assert offsets[0..] == offsets && offsets[..0] == [];
    HandledFrom(me, log, offsets, 0, 0, fate);
    CompletesFromStart(me, log, offsets, HandleLog(me, log, 0, None, fate), fate);
  }

  lemma CompletesFromStart(me: Identity, log: seq<Message>, offsets: seq<nat>, h: Handling, fate: nat -> Fate)
    requires AllMatch(me, log, offsets) && Completes(me, log, offsets, 0, h, fate)
    ensures h == Handling(
      |log|, h.last, RunOffsets(log, offsets, |offsets|), StatusesOf(me, log, offsets, |offsets|, fate), true)
  {
    var none := StatusesOf(me, log, offsets, 0, fate);
    assert none == [];
    assert [] + h.executed == h.executed && none + h.statuses == h.statuses;
  }

  // ---- The same, told by the triggers' own fields ----

  /** The j-th trigger is the last automatic one before the i-th. */
  predicate IsLastAutomatic(log: seq<Message>, offsets: seq<nat>, j: nat, i: nat)
    requires j < i <= |offsets|
    requires forall k :: 0 <= k < |offsets| ==> offsets[k] < |log| && log[offsets[k]].Request?
  {
    !log[offsets[j]].trigger.manual && forall m :: j < m < i ==> log[offsets[m]].trigger.manual
  }

  /** The i-th trigger carries the run id of the last automatic one before it. */
  ghost predicate Repeats(log: seq<Message>, offsets: seq<nat>, i: nat)
    requires i < |offsets|
    requires forall k :: 0 <= k < |offsets| ==> offsets[k] < |log| && log[offsets[k]].Request?
  {
    exists j :: 0 <= j < i && IsLastAutomatic(log, offsets, j, i)
                && RunIdOf(log[offsets[j]].trigger) == RunIdOf(log[offsets[i]].trigger)
  }

  lemma {:induction false} LastAutomaticIs(log: seq<Message>, offsets: seq<nat>, i: nat)
    requires i <= |offsets|
    requires forall k :: 0 <= k < |offsets| ==> offsets[k] < |log| && log[offsets[k]].Request?
    ensures match LastAutomatic(log, offsets[..i])
      case None => forall m :: 0 <= m < i ==> log[offsets[m]].trigger.manual
      case Some(id) =>
        exists j :: 0 <= j < i && IsLastAutomatic(log, offsets, j, i) && RunIdOf(log[offsets[j]].trigger) == id
  {
    if i > 0 {
      assert offsets[..i][..i - 1] == offsets[..i - 1];
      LastAutomaticIs(log, offsets, i - 1);
      var t := log[offsets[i - 1]].trigger;
      if !t.manual {
        assert IsLastAutomatic(log, offsets, i - 1, i);
      } else if LastAutomatic(log, offsets[..i - 1]).Some? {
        var j :| 0 <= j < i - 1 && IsLastAutomatic(log, offsets, j, i - 1)
                 && RunIdOf(log[offsets[j]].trigger) == LastAutomatic(log, offsets[..i - 1]).value;
        assert IsLastAutomatic(log, offsets, j, i);
      }
    }
  }

  lemma RepeatsExactly(log: seq<Message>, offsets: seq<nat>, i: nat)
    requires i < |offsets|
    requires forall k :: 0 <= k < |offsets| ==> offsets[k] < |log| && log[offsets[k]].Request?
    ensures Repeats(log, offsets, i) <==> LastAutomatic(log, offsets[..i]) == Some(DedupId(log[offsets[i]].trigger))
  {
    LastAutomaticIs(log, offsets, i);
    if Repeats(log, offsets, i) {
      var j :| 0 <= j < i && IsLastAutomatic(log, offsets, j, i)
               && RunIdOf(log[offsets[j]].trigger) == RunIdOf(log[offsets[i]].trigger);
      if LastAutomatic(log, offsets[..i]).Some? {
        var k :| 0 <= k < i && IsLastAutomatic(log, offsets, k, i)
                 && RunIdOf(log[offsets[k]].trigger) == LastAutomatic(log, offsets[..i]).value;
        OneLastAutomatic(log, offsets, j, k, i);
      }
    }
  }

  lemma OneLastAutomatic(log: seq<Message>, offsets: seq<nat>, j: nat, k: nat, i: nat)
    requires j < i <= |offsets| && k < i
    requires forall m :: 0 <= m < |offsets| ==> offsets[m] < |log| && log[offsets[m]].Request?
    requires IsLastAutomatic(log, offsets, j, i) && IsLastAutomatic(log, offsets, k, i)
    ensures j == k
  {
  }

  lemma {:induction false} RunOffsetsMembers(me: Identity, log: seq<Message>, offsets: seq<nat>, n: nat)
    requires n <= |offsets| && AllMatch(me, log, offsets)
    ensures forall o :: o in RunOffsets(log, offsets, n) <==>
      exists i :: 0 <= i < n && offsets[i] == o && Runs(log, offsets, i)
  {
    if n > 0 {
      RunOffsetsMembers(me, log, offsets, n - 1);
      RunsGrow(me, log, offsets, n - 1);
    }
  }

  /**
   Under the same conditions: the i-th matching trigger runs exactly when it is automatic and does not
   carry the run id of the last automatic one before it, a missing id counting as "unknown".
   */
  lemma RunsExactly(me: Identity, log: seq<Message>, fate: nat -> Fate, i: nat)
    requires Quiet(log, fate) && i < |MatchingOffsets(me, log, 0)|
    ensures var offsets := MatchingOffsets(me, log, 0);
      && AllMatch(me, log, offsets)
      && (offsets[i] in HandleLog(me, log, 0, None, fate).executed <==>
          !log[offsets[i]].trigger.manual && !Repeats(log, offsets, i))
  {
    HandlingIsAFold(me, log, fate);
    InRunOffsets(me, log, MatchingOffsets(me, log, 0), i);
    RepeatsExactly(log, MatchingOffsets(me, log, 0), i);
  }

  lemma InRunOffsets(me: Identity, log: seq<Message>, offsets: seq<nat>, i: nat)
    requires offsets == MatchingOffsets(me, log, 0) && AllMatch(me, log, offsets) && i < |offsets|
    ensures offsets[i] in RunOffsets(log, offsets, |offsets|) <==> Runs(log, offsets, i)
  {
    RunOffsetsMembers(me, log, offsets, |offsets|);
    forall k | 0 <= k < |offsets| && offsets[k] == offsets[i] ensures k == i {
      if k < i {
        MatchingAscends(me, log, 0, k, i);
      } else if i < k {
        MatchingAscends(me, log, 0, i, k);
      }
    }
  }

  /** Each status names this backend and its trigger's own run id, and says what became of it. */
  lemma StatusesExactly(me: Identity, log: seq<Message>, fate: nat -> Fate, i: nat)
    requires Quiet(log, fate) && i < |MatchingOffsets(me, log, 0)|
    ensures var h, offsets := HandleLog(me, log, 0, None, fate), MatchingOffsets(me, log, 0);
      && AllMatch(me, log, offsets) && |h.statuses| == |offsets|
      && var t, f, st := log[offsets[i]].trigger, fate(offsets[i]), h.statuses[i];
         && st.stage == me.stage && st.product == me.product
         && st.runId == (if t.runId.Some? then t.runId.value else f.freshId)
         && (st.kind == Skipped <==> t.manual && !Repeats(log, offsets, i))
         && (st.kind == Failed <==> !t.manual && !Repeats(log, offsets, i) && !f.runOk)
  {
    HandlingIsAFold(me, log, fate);
    RepeatsExactly(log, MatchingOffsets(me, log, 0), i);
  }

  /** Automatic triggers whose run ids all differ from the one before all run, in order. */
  lemma FreshIdsAllRun(me: Identity, log: seq<Message>, fate: nat -> Fate)
    requires Quiet(log, fate) && AllMatch(me, log, MatchingOffsets(me, log, 0))
    requires var offsets := MatchingOffsets(me, log, 0);
      && (forall i :: 0 <= i < |offsets| ==> !log[offsets[i]].trigger.manual && log[offsets[i]].trigger.runId.Some?)
      && (forall i :: 0 < i < |offsets| ==> log[offsets[i]].trigger.runId != log[offsets[i - 1]].trigger.runId)
    ensures HandleLog(me, log, 0, None, fate).executed == MatchingOffsets(me, log, 0)
  {
    var offsets := MatchingOffsets(me, log, 0);
    HandlingIsAFold(me, log, fate);
    forall i | 0 <= i < |offsets| ensures Runs(log, offsets, i) {
      RepeatsExactly(log, offsets, i);
      FreshIdIsNoRepeat(log, offsets, i);
    }
    AllRun(me, log, offsets, |offsets|);
    assert offsets[..|offsets|] == offsets;
  }

  lemma FreshIdIsNoRepeat(log: seq<Message>, offsets: seq<nat>, i: nat)
    requires i < |offsets|
    requires forall k :: 0 <= k < |offsets| ==> offsets[k] < |log| && log[offsets[k]].Request?
    requires forall k :: 0 <= k < |offsets| ==> !log[offsets[k]].trigger.manual && log[offsets[k]].trigger.runId.Some?
    requires i > 0 ==> log[offsets[i]].trigger.runId != log[offsets[i - 1]].trigger.runId
    ensures !Repeats(log, offsets, i)
  {
    if i > 0 {
      assert IsLastAutomatic(log, offsets, i - 1, i);
      forall j | 0 <= j < i && IsLastAutomatic(log, offsets, j, i) ensures j == i - 1 {
        OneLastAutomatic(log, offsets, j, i - 1, i);
      }
    }
  }

  lemma {:induction false} AllRun(me: Identity, log: seq<Message>, offsets: seq<nat>, n: nat)
    requires n <= |offsets| && AllMatch(me, log, offsets) && forall i :: 0 <= i < n ==> Runs(log, offsets, i)
    ensures RunOffsets(log, offsets, n) == offsets[..n]
  {
    if n > 0 {
      AllRun(me, log, offsets, n - 1);
      RunsGrow(me, log, offsets, n - 1);
      assert offsets[..n] == offsets[..n - 1] + [offsets[n - 1]];
    }
  }

  /** An automatic trigger with the run id of the automatic one before it, or both without one, does not run. */
  lemma RepeatedIdDoesNotRun(me: Identity, log: seq<Message>, fate: nat -> Fate, i: nat)
    requires Quiet(log, fate) && 0 < i < |MatchingOffsets(me, log, 0)| && AllMatch(me, log, MatchingOffsets(me, log, 0))
    requires var offsets := MatchingOffsets(me, log, 0);
      var a, b := log[offsets[i - 1]].trigger, log[offsets[i]].trigger;
      !a.manual && a.runId == b.runId
    ensures MatchingOffsets(me, log, 0)[i] !in HandleLog(me, log, 0, None, fate).executed
  {
    var offsets := MatchingOffsets(me, log, 0);
    RunsExactly(me, log, fate, i);
    assert IsLastAutomatic(log, offsets, i - 1, i);
  }

  lemma {:induction false} AllMatching(me: Identity, log: seq<Message>, from: nat)
    requires from <= |log| && forall m :: m in log ==> Matches(me, m)
    ensures |MatchingOffsets(me, log, from)| == |log| - from
    ensures forall i :: 0 <= i < |log| - from ==> MatchingOffsets(me, log, from)[i] == from + i
    decreases |log| - from
  {
    if from < |log| {
      assert log[from] in log;
      AllMatching(me, log, from + 1);
    }
  }

  /**
   Triggers built for this backend with distinct run ids: exactly the automatic ones run, and the i-th
   status carries the i-th run id and says skipped for a manual one.
   */
  lemma BuiltTriggersAreHandled(
    me: Identity, ids: seq<string>, manual: seq<bool>, log: seq<Message>, fate: nat -> Fate, i: nat)
    requires |ids| == |manual| == |log| && Quiet(log, fate) && i < |ids|
    requires forall k :: 0 <= k < |log| ==> log[k] == BuildTrigger(me, ids[k], manual[k])
    requires forall j, k :: 0 <= j < k < |ids| ==> ids[j] != ids[k]
    ensures var h := HandleLog(me, log, 0, None, fate);
      && |h.statuses| == |ids| && h.statuses[i].runId == ids[i] && (h.statuses[i].kind == Skipped <==> manual[i])
      && (i in h.executed <==> !manual[i])
  {
    forall m | m in log ensures Matches(me, m) {
    }
    AllMatching(me, log, 0);
    var offsets := MatchingOffsets(me, log, 0);
    StatusesExactly(me, log, fate, i);
    RunsExactly(me, log, fate, i);
    assert offsets[i] == i && !Repeats(log, offsets, i) by {
      forall j | 0 <= j < i ensures RunIdOf(log[offsets[j]].trigger) != RunIdOf(log[offsets[i]].trigger) {
        assert offsets[j] == j;
      }
    }
  }

  /** A message built for an identity is taken by exactly the backends of that identity. */
  lemma BuiltTriggerReaches(target: Identity, me: Identity, runId: string, manual: bool)
    ensures Matches(me, BuildTrigger(target, runId, manual)) <==> me == target
  {
  }

  // ---- The status sensor ----

  /** One poll of the status topic at a time: nothing, an error, or the next message. */
  datatype PollEvent = Nothing(at: int) | PollError(at: int) | Deliver(at: int)

  /** A status record as the sensor reads it: undecodable, JSON that is not an object, or a status. */
  datatype Report = Noise | NotAStatus | Update(status: Status)

  type StatusLog = seq<Report>

  datatype Query = Query(runId: string, stage: string, product: string)

  predicate Answers(r: Report, q: Query) {
    r.Update? && r.status.runId == q.runId && r.status.stage == q.stage && r.status.product == q.product
  }

  /** get_status_start_offset: the end of the topic, or 0 when the probe fails. */
  function StartOffset(log: StatusLog, probeFails: bool): nat {
    if probeFails then 0 else |log|
  }

  /** How many messages the polls made before the deadline could deliver, from position `from`. */
  function Delivered(log: StatusLog, from: nat, polls: seq<PollEvent>, deadline: int): (n: nat)
    requires from <= |log|
    ensures from + n <= |log|
    decreases |polls|
  {
    if polls == [] || polls[0].at >= deadline then 0
    else if polls[0].Deliver? && from < |log| then 1 + Delivered(log, from + 1, polls[1..], deadline)
    else Delivered(log, from, polls[1..], deadline)
  }

  /** Neither an answer nor a payload that would raise. */
  predicate Passes(r: Report, q: Query) {
    !Answers(r, q) && !r.NotAStatus?
  }

  datatype Sensed = Answer(offset: nat) | TimedOut | SensorRaised(offset: nat)

  /**
   Everything before the result was passed over, and nothing delivered by the deadline was missed. A start
   beyond the end is out of range, which auto.offset.reset sends back to the beginning.
   */
  ghost predicate IsSensed(log: StatusLog, start: nat, polls: seq<PollEvent>, deadline: int, q: Query, r: Sensed) {
    var first := if start <= |log| then start else 0;
    var last := first + Delivered(log, first, polls, deadline);
    match r
    case Answer(o) => first <= o < last && Answers(log[o], q) && forall i :: first <= i < o ==> Passes(log[i], q)
    case SensorRaised(o) => first <= o < last && log[o].NotAStatus? && forall i :: first <= i < o ==> Passes(log[i], q)
    case TimedOut => forall i :: first <= i < last ==> Passes(log[i], q)
  }

  /** poll_for_status. */
  method PollForStatus(log: StatusLog, start: nat, polls: seq<PollEvent>, deadline: int, q: Query) returns (r: Sensed)
    ensures IsSensed(log, start, polls, deadline, q, r)
    ensures r.Answer? ==>
      && log[r.offset].Update? && log[r.offset].status.runId == q.runId
      && log[r.offset].status.stage == q.stage && log[r.offset].status.product == q.product
  {
    ghost var first := if start <= |log| then start else 0;
    var position := if start <= |log| then start else 0;
    var i := 0;
    while i < |polls| && polls[i].at < deadline
      invariant first <= position <= |log| && i <= |polls|
      invariant forall j :: first <= j < position ==> Passes(log[j], q)
      invariant position + Delivered(log, position, polls[i..], deadline)
             == first + Delivered(log, first, polls, deadline)
    {
      assert polls[i..][0] == polls[i] && polls[i..][1..] == polls[i + 1..];
      if polls[i].Deliver? && position < |log| {
        if log[position].NotAStatus? {
          return SensorRaised(position);
        }
        if log[position].Update? {
          var status := log[position].status;
          if status.runId == q.runId && status.stage == q.stage && status.product == q.product {
            return Answer(position);
          }
        }
        position := position + 1;
      }
      i := i + 1;
    }
    r := TimedOut;
  }

  /** A trigger built for this backend is answered by one of its statuses. */
  lemma {:induction false} TriggerIsAnswered(
    me: Identity, log: seq<Message>, o: nat, runId: string, manual: bool, fate: nat -> Fate) returns (answer: Status)
    requires Quiet(log, fate) && o < |log| && log[o] == BuildTrigger(me, runId, manual)
    ensures answer in HandleLog(me, log, 0, None, fate).statuses
    ensures Answers(Update(answer), Query(runId, me.stage, me.product))
  {
    HandlingIsAFold(me, log, fate);
    MatchingMembers(me, log, 0);
    var offsets := MatchingOffsets(me, log, 0);
    assert o in offsets;
    var i :| 0 <= i < |offsets| && offsets[i] == o;
    answer := StatusesOf(me, log, offsets, |offsets|, fate)[i];
  }

  /**
   From trigger to sensor: the backend handled a trigger built for it, its statuses went
   out after the sensor's start was probed, and the sensor polled long enough. Then
   whatever else the topic carries, the sensor ends with an answer to that trigger, and with the
   first one from where its probe, or a probe that failed, makes it begin.
   */
  lemma {:induction false} AnswerIsFound(
    me: Identity, log: seq<Message>, o: nat, runId: string, manual: bool, fate: nat -> Fate,
    earlier: StatusLog, probeFails: bool, later: StatusLog, polls: seq<PollEvent>, deadline: int, r: Sensed)
    requires Quiet(log, fate) && o < |log| && log[o] == BuildTrigger(me, runId, manual)
    requires forall s :: s in HandleLog(me, log, 0, None, fate).statuses ==> Update(s) in later
    requires NotAStatus !in later && (probeFails ==> NotAStatus !in earlier)
    requires var start := StartOffset(earlier, probeFails);
      && Delivered(earlier + later, start, polls, deadline) == |earlier + later| - start
      && IsSensed(earlier + later, start, polls, deadline, Query(runId, me.stage, me.product), r)
    ensures r.Answer? && r.offset < |earlier + later|
    ensures (earlier + later)[r.offset].Update? && (earlier + later)[r.offset].status.runId == runId
    ensures var first := if probeFails then 0 else |earlier|;
      && first <= r.offset
      && forall i, kind :: first <= i < r.offset ==>
           (earlier + later)[i] != Update(Status(me.stage, me.product, runId, kind))
  {
    var all, q := earlier + later, Query(runId, me.stage, me.product);
    var answer := TriggerIsAnswered(me, log, o, runId, manual, fate);
    var k :| 0 <= k < |later| && later[k] == Update(answer);
    assert all[|earlier| + k] == later[k] && !Passes(all[|earlier| + k], q);
    forall j | StartOffset(earlier, probeFails) <= j < |all| ensures !all[j].NotAStatus? {
      assert all[j] == if j < |earlier| then earlier[j] else later[j - |earlier|];
    }
    forall i, kind | StartOffset(earlier, probeFails) <= i < r.offset
      ensures all[i] != Update(Status(me.stage, me.product, runId, kind))
    {
      assert Passes(all[i], q);
    }
  }
}
