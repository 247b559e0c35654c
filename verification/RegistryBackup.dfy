/**
 The cloud copy of the registry: _write_all and restore_from_backup_if_missing
 (service/registry.py), backup, restore_if_missing and the timed worker thread
 (service/registry_backup.py). A backup that outlives its timeout goes on in its
 thread and may still land at any later moment. `written` remembers, for the
 proofs only, every content ever written locally.
 */
module RegistryBackup {
  import opened Wrappers
  import opened Seqs

  /** What became of one upload by the time its caller stopped waiting. */
  datatype Upload = Finished | Refused | AppliedThenRaised | TimedOut

  datatype Download = Answered | Failed

  datatype Mirror<T> = Mirror(local: Option<T>, cloud: Option<T>, inFlight: seq<T>, written: seq<T>)

  datatype Event<T> =
    | Write(content: T, upload: Upload)
    | Land(thread: nat)
    | Die(thread: nat)
    | LoseLocal
    | Restart(download: Download)

  function Without<T>(xs: seq<T>, i: nat): seq<T>
    requires i < |xs|
  {
    xs[..i] + xs[i + 1..]
  }

  function Step<T>(configured: bool, s: Mirror<T>, e: Event<T>): Mirror<T> {
    match e
    case Write(c, upload) =>
      var kept := s.(local := Some(c), written := s.written + [c]);
      if !configured || upload == Refused then kept
      else if upload == TimedOut then kept.(inFlight := s.inFlight + [c])
      else kept.(cloud := Some(c))
    case Land(i) =>
      if i < |s.inFlight| then s.(cloud := Some(s.inFlight[i]), inFlight := Without(s.inFlight, i)) else s
    case Die(i) => if i < |s.inFlight| then s.(inFlight := Without(s.inFlight, i)) else s
    case LoseLocal => s.(local := None)
    case Restart(download) =>
      if s.local.Some? || !configured || download == Failed then s else s.(local := s.cloud)
  }

  function Run<T>(configured: bool, s: Mirror<T>, events: seq<Event<T>>): Mirror<T> {
    if events == [] then s else Step(configured, Run(configured, s, events[..|events| - 1]), events[|events| - 1])
  }

  lemma RunAppend<T>(configured: bool, s: Mirror<T>, events: seq<Event<T>>, e: Event<T>)
    ensures Run(configured, s, events + [e]) == Step(configured, Run(configured, s, events), e)
  {
    assert (events + [e])[..|events|] == events;
  }

  function Empty<T>(): Mirror<T> {
    Mirror(None, None, [], [])
  }

  /** The registry file and its mirror. */
  class Registry<T(==)> {
    const configured: bool
    var local: Option<T>
    var cloud: Option<T>
    var inFlight: seq<T>
    ghost var written: seq<T>

    constructor (configured: bool)
      ensures this.configured == configured && State() == Empty()
    {
      this.configured, local, cloud, inFlight, written := configured, None, None, [], [];
    }

    ghost function State(): Mirror<T>
      reads this
    {
      Mirror(local, cloud, inFlight, written)
    }

    /** _run_with_timeout around one upload: raises unless it finished in time. */
    method RunWithTimeout(content: T, upload: Upload) returns (raised: bool)
      modifies this`cloud, this`inFlight
      ensures raised == (upload != Finished)
      ensures cloud == if upload == Finished || upload == AppliedThenRaised then Some(content) else old(cloud)
      ensures inFlight == if upload == TimedOut then old(inFlight) + [content] else old(inFlight)
    {
      raised := upload != Finished;
      if upload == TimedOut {
        inFlight := inFlight + [content];
      } else if upload != Refused {
        cloud := Some(content);
      }
    }

    /** Best effort: whatever the upload does, the caller sees nothing of it. */
    method Backup(content: T, upload: Upload)
      modifies this`cloud, this`inFlight
      ensures !configured ==> unchanged(this)
      ensures configured ==>
        cloud == (if upload == Finished || upload == AppliedThenRaised then Some(content) else old(cloud))
      ensures configured ==> inFlight == if upload == TimedOut then old(inFlight) + [content] else old(inFlight)
    {
      if !configured {
        return;
      }
      var _ := RunWithTimeout(content, upload);
    }

    method WriteAll(content: T, upload: Upload)
      modifies this
      ensures State() == Step(configured, old(State()), Write(content, upload))
    {
      local := Some(content);
      written := written + [content];
      Backup(content, upload);
    }

    /** restore_if_missing: the last backup, nothing, or a failure that stops the start-up. */
    method RestoreIfMissing(download: Download) returns (raised: bool, content: Option<T>)
      ensures raised == (configured && download == Failed)
      ensures content == if configured && !raised then cloud else None
    {
      raised, content := false, None;
      if !configured {
        return;
      }
      if download == Failed {
        raised := true;
        return;
      }
      content := cloud;
    }

    method RestoreFromBackupIfMissing(download: Download) returns (raised: bool)
      modifies this`local
      ensures raised == (old(local).None? && configured && download == Failed)
      ensures State() == Step(configured, old(State()), Restart(download))
    {
      raised := false;
      if local.Some? {
        return;
      }
      var content;
      raised, content := RestoreIfMissing(download);
      if !raised && content.Some? {
        local := content;
      }
    }
  }

  // ---- The cloud object is always something once written ----

  ghost predicate Known<T>(s: Mirror<T>) {
    && (s.cloud.Some? ==> s.cloud.value in s.written)
    && (s.local.Some? ==> s.local.value in s.written)
    && forall i :: 0 <= i < |s.inFlight| ==> s.inFlight[i] in s.written
  }

  lemma StepKeepsKnown<T>(configured: bool, s: Mirror<T>, e: Event<T>)
    requires Known(s)
    ensures Known(Step(configured, s, e))
  {
    match e
    case Write(c, upload) =>
      var t := Step(configured, s, e);
      assert t.written == s.written + [c] && t.written[|s.written|] == c;
      forall i | 0 <= i < |t.inFlight| ensures t.inFlight[i] in t.written {
        assert i == |s.inFlight| || s.inFlight[i] in s.written;
      }
    case Land(i) =>
    case Die(i) =>
    case LoseLocal =>
    case Restart(_) =>
  }

  /** Late threads, losses and restarts included, local file and cloud object are contents written earlier. */
  lemma {:induction false} CloudIsAnEarlierWrite<T>(configured: bool, events: seq<Event<T>>)
    ensures Known(Run(configured, Empty(), events))
  {
    if events != [] {
      CloudIsAnEarlierWrite(configured, events[..|events| - 1]);
      StepKeepsKnown(configured, Run(configured, Empty(), events[..|events| - 1]), events[|events| - 1]);
    }
  }

  // ---- Local results do not depend on the cloud ----

  function LastWrite<T>(events: seq<Event<T>>): Option<T> {
    if events == [] then None
    else if events[|events| - 1].Write? then Some(events[|events| - 1].content)
    else LastWrite(events[..|events| - 1])
  }

  /** While the file is not lost and a write has happened, it holds the last write, whatever the cloud does. */
  lemma {:induction false} LocalIsTheLastWrite<T>(configured: bool, events: seq<Event<T>>)
    requires forall i :: 0 <= i < |events| ==> !events[i].LoseLocal?
    ensures LastWrite(events).Some? ==> Run(configured, Empty(), events).local == LastWrite(events)
  {
    if events != [] {
      LocalIsTheLastWrite(configured, events[..|events| - 1]);
    }
  }

  // ---- Disaster recovery ----

  /** Every backup finishes before its caller stops waiting for it. */
  predicate Prompt<T>(events: seq<Event<T>>) {
    forall i :: 0 <= i < |events| && events[i].Write? ==> events[i].upload == Finished
  }

  lemma {:induction false} PromptRunsMirror<T>(events: seq<Event<T>>)
    requires Prompt(events)
    ensures var s := Run(true, Empty(), events); s.cloud == LastWrite(events) && s.inFlight == []
  {
    if events != [] {
      var front, e := events[..|events| - 1], events[|events| - 1];
      assert Prompt(front);
      PromptRunsMirror(front);
      var before := Run(true, Empty(), front);
      assert Run(true, Empty(), events) == Step(true, before, e);
      if e.Write? {
        assert e.upload == Finished;
      }
    }
  }

  /** If every backup finished in time, losing the file and restarting brings back the last registry state. */
  lemma LossIsRecovered<T>(events: seq<Event<T>>)
    requires Prompt(events)
    ensures Run(true, Empty(), events + [LoseLocal] + [Restart(Answered)]).local == LastWrite(events)
  {
    PromptRunsMirror(events);
    RunAppend(true, Empty(), events, LoseLocal);
    RunAppend(true, Empty(), events + [LoseLocal], Restart(Answered));
  }

  /** What threads still in flight do: each event is one of them landing or dying. */
  ghost predicate OnlyThreads<T(!new)>(events: seq<Event<T>>) {
    forall i :: 0 <= i < |events| ==> events[i].Land? || events[i].Die?
  }

  /** Whatever the threads in flight do before the disaster, recovery brings back c. */
  ghost predicate RecoveryIsCertain<T(!new)>(s: Mirror<T>, c: T) {
    forall late: seq<Event<T>> :: OnlyThreads(late) ==> Recovered(Run(true, s, late)) == Some(c)
  }

  function Recovered<T>(s: Mirror<T>): Option<T> {
    Step(true, Step(true, s, LoseLocal), Restart(Answered)).local
  }

  lemma {:induction false} LateThreadsOnlyCarry<T(!new)>(s: Mirror<T>, late: seq<Event<T>>, c: T)
    requires OnlyThreads(late) && s.cloud == Some(c)
    requires forall i :: 0 <= i < |s.inFlight| ==> s.inFlight[i] == c
    ensures var t := Run(true, s, late);
      t.cloud == Some(c) && forall i :: 0 <= i < |t.inFlight| ==> t.inFlight[i] == c
  {
    if late != [] {
      LateThreadsOnlyCarry(s, late[..|late| - 1], c);
    }
  }

  /**
   After a write whose backup succeeded, recovery is certain to bring it back exactly when no
   thread still carries another content: a late upload of an older registry replaces the newer one.
   */
  lemma RecoveryIsCertainExactly<T(!new)>(before: Mirror<T>, c: T)
    ensures RecoveryIsCertain(Step(true, before, Write(c, Finished)), c) <==>
      forall i :: 0 <= i < |before.inFlight| ==> before.inFlight[i] == c
  {
    var s := Step(true, before, Write(c, Finished));
    if RecoveryIsCertain(s, c) {
      forall i | 0 <= i < |before.inFlight| ensures before.inFlight[i] == c {
        var late: seq<Event<T>> := [Land(i)];
        assert late == [] + [Land(i)];
        RunAppend(true, s, [], Land(i));
        assert OnlyThreads(late);
        assert Recovered(Run(true, s, late)) == Some(before.inFlight[i]);
      }
    }
    if forall i :: 0 <= i < |before.inFlight| ==> before.inFlight[i] == c {
      forall late: seq<Event<T>> | OnlyThreads(late) ensures Recovered(Run(true, s, late)) == Some(c) {
        LateThreadsOnlyCarry(s, late, c);
      }
    }
  }

  /** Such a late upload is real: one that timed out lands after a newer write and takes its place in the cloud. */
  lemma LateUploadReplaces<T>(older: T, newer: T)
    ensures var s := Run(true, Empty(), [Write(older, TimedOut)] + [Write(newer, Finished)] + [Land(0)]);
      s.local == Some(newer) && s.cloud == Some(older)
  {
    var first: seq<Event<T>> := [Write(older, TimedOut)];
    assert [] + first == first;
    RunAppend(true, Empty(), [], first[0]);
    RunAppend(true, Empty(), first, Write(newer, Finished));
    RunAppend(true, Empty(), first + [Write(newer, Finished)], Land(0));
  }

  /** Uploads whose caller gave up waiting for them. */
  function GivenUp<T>(events: seq<Event<T>>): nat {
    if events == [] then 0
    else
      var e := events[|events| - 1];
      GivenUp(events[..|events| - 1]) + if e.Write? && e.upload == TimedOut then 1 else 0
  }

  /** Threads that landed or died. */
  function Gone<T>(s: Mirror<T>, events: seq<Event<T>>): nat {
    if events == [] then 0
    else
      var front, e := events[..|events| - 1], events[|events| - 1];
      Gone(s, front) + if (e.Land? || e.Die?) && e.thread < |Run(true, s, front).inFlight| then 1 else 0
  }

  /** Every upload given up is in flight until its one thread lands or dies, and never afterwards. */
  lemma {:induction false} UploadsAreConserved<T>(s: Mirror<T>, events: seq<Event<T>>)
    ensures |Run(true, s, events).inFlight| + Gone(s, events) == |s.inFlight| + GivenUp(events)
  {
    if events != [] {
      UploadsAreConserved(s, events[..|events| - 1]);
    }
  }

  predicate IsLive<T>(e: Event<T>) {
    !e.Restart?
  }

  lemma {:induction false} FileStays<T>(configured: bool, s: Mirror<T>, events: seq<Event<T>>)
    requires s.local.Some? && forall i :: 0 <= i < |events| ==> !events[i].LoseLocal?
    ensures Run(configured, s, events).local.Some?
  {
    if events != [] {
      FileStays(configured, s, events[..|events| - 1]);
    }
  }

  /** Once a file exists and is not lost, restarts are invisible: dropping them all from a run changes nothing. */
  lemma {:induction false} RestoreNeverOverwrites<T(!new)>(configured: bool, s: Mirror<T>, events: seq<Event<T>>)
    requires s.local.Some? && forall i :: 0 <= i < |events| ==> !events[i].LoseLocal?
    ensures Run(configured, s, events) == Run(configured, s, Select(events, IsLive))
  {
    if events != [] {
      var front, e := events[..|events| - 1], events[|events| - 1];
      FileStays(configured, s, front);
      RestoreNeverOverwrites(configured, s, front);
      assert events == front + [e];
      OneMoreLive(configured, s, front, e);
    }
  }

  lemma {:induction false} OneMoreLive<T(!new)>(configured: bool, s: Mirror<T>, front: seq<Event<T>>, e: Event<T>)
    requires Run(configured, s, front).local.Some? && Run(configured, s, front) == Run(configured, s, Select(front, IsLive))
    ensures Run(configured, s, front + [e]) == Run(configured, s, Select(front + [e], IsLive))
  {
    var live := Select(front, IsLive);
    SelectAppend(front, e, IsLive);
    RunAppend(configured, s, front, e);
    if IsLive(e) {
      RunAppend(configured, s, live, e);
    } else {
      assert live + [] == live;
    }
  }

  /** Without credentials there is no mirror: the cloud stays empty and a lost file stays lost until the next write. */
  lemma {:induction false} UnconfiguredHasNoMirror<T>(events: seq<Event<T>>)
    ensures var s := Run(false, Empty(), events);
      s.cloud == None && s.inFlight == [] && (forall d :: Step(false, s.(local := None), Restart(d)).local == None)
  {
    if events != [] {
      UnconfiguredHasNoMirror(events[..|events| - 1]);
    }
  }
}
