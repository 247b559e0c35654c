/**
 The consumer's worker pool (run, _copy_one and process_file of
 blueprints/consumer/file/extractor/main.py) as a state machine. Each file's
 worker reads the source time, reads the target time, starts the copy, sees it
 through and publishes, one step at a time; steps of different files interleave
 freely with each other, with writes to the source and with later cycles.

 Both containers are stamped by one clock. It ticks at every copy; a source write
 says by how much it finds the clock advanced, which may be nothing.

 A copy reads its bytes when it starts and is stamped when it lands. On S3 and GCS
 the call waits for that; on Azure start_copy_from_url returns at once, the worker
 goes on to publish, and the service lands or aborts the copy later, on its own.
 `torn` is a history variable: the files whose last copy landed when the source
 already had other bytes and which have neither been rewritten nor removed since.
 */
module FilePool {
  import opened Wrappers
  import opened Seqs
  import opened FileCopy

  datatype Result = DoneCopied | DoneUnsent | DoneSkipped | DoneFailed

  datatype Worker =
    | Queued
    | SawSource(time: int)
    | MustCopy
    | Copying(data: Bytes)
    | Returned
    | Done(result: Result)

  /**
   `landing` holds the copies Azure has under way and `taken` what each file's latest copy read. Per
   cycle, `copied` are the files whose file_copy returned copied, `written` those whose bytes have
   landed, `aborted` those Azure gave up.
   */
  datatype Pool = Pool(
    source: map<string, Obj>, target: map<string, Obj>, clock: int, workers: map<string, Worker>,
    landing: map<string, Bytes>, taken: map<string, Bytes>,
    copied: set<string>, written: set<string>, aborted: set<string>, sent: seq<string>, torn: set<string>)

  datatype Event =
    | Work(key: string, fault: Fault)
    | Land(key: string)
    | Abort(key: string)
    | Write(key: string, data: Bytes, tick: nat)
    | Remove(key: string)
    | NewCycle(pending: set<string>)

  function SetWorker(s: Pool, key: string, w: Worker): Pool {
    s.(workers := s.workers[key := w])
  }

  /** The source has a dated object with other bytes. */
  predicate Differs(s: Pool, key: string, data: Bytes) {
    key in s.source && s.source[key].modified.Some? && s.source[key].data != data
  }

  function Landed(s: Pool, key: string, data: Bytes): Pool {
    s.(target := s.target[key := Obj(data, Some(s.clock + 1))], clock := s.clock + 1, written := s.written + {key},
       torn := if Differs(s, key, data) then s.torn + {key} else s.torn - {key})
  }

  /** Where reading the source's time leads. */
  function AfterSource(env: Env, source: map<string, Obj>, key: string, f: Fault): Worker {
    if !env.validKey(key) then Done(DoneFailed)
    else if env.provider == Other then Done(DoneSkipped)
    else match ReadHead(env.provider, Modified(source, key), f.sourceHead)
      case HeadRaised => Done(DoneFailed)
      case Absent => Done(DoneSkipped)
      case At(time) => SawSource(time)
  }

  /** Where reading the target's time leads. */
  function AfterTarget(env: Env, target: map<string, Obj>, key: string, time: int, f: Fault): Worker {
    match ReadHead(env.provider, Modified(target, key), f.targetHead)
    case HeadRaised => Done(DoneFailed)
    case At(targetTime) => if time <= targetTime then Done(DoneSkipped) else MustCopy
    case Absent => MustCopy
  }

  function BeginCopy(env: Env, s: Pool, key: string, f: Fault): Pool {
    if f.copy || key !in s.source then SetWorker(s, key, Done(DoneFailed))
    else if env.provider == Azure then
      s.(workers := s.workers[key := Returned],
         landing := s.landing[key := s.source[key].data], taken := s.taken[key := s.source[key].data],
         copied := s.copied + {key}, written := s.written - {key}, aborted := s.aborted - {key})
    else
      s.(workers := s.workers[key := Copying(s.source[key].data)], taken := s.taken[key := s.source[key].data])
  }

  function Publish(s: Pool, key: string, f: Fault): Pool {
    if f.send then SetWorker(s, key, Done(DoneUnsent))
    else s.(workers := s.workers[key := Done(DoneCopied)], sent := s.sent + [key])
  }

  function Work1(env: Env, s: Pool, key: string, f: Fault): Pool
    requires key in s.workers
  {
    match s.workers[key]
    case Queued => SetWorker(s, key, AfterSource(env, s.source, key, f))
    case SawSource(time) => SetWorker(s, key, AfterTarget(env, s.target, key, time, f))
    case MustCopy => BeginCopy(env, s, key, f)
    case Copying(data) => Landed(s, key, data).(workers := s.workers[key := Returned], copied := s.copied + {key})
    case Returned => Publish(s, key, f)
    case Done(_) => s
  }

  predicate AllDone(workers: map<string, Worker>) {
    forall k :: k in workers ==> workers[k].Done?
  }

  /** One step; an event that is not enabled does nothing. */
  function Step(env: Env, s: Pool, e: Event): Pool {
    match e
    case Work(key, f) => if key in s.workers then Work1(env, s, key, f) else s
    case Land(key) => if key in s.landing then Landed(s, key, s.landing[key]).(landing := s.landing - {key}) else s
    case Abort(key) => if key in s.landing then s.(landing := s.landing - {key}, aborted := s.aborted + {key}) else s
    case Write(key, data, tick) =>
      s.(source := s.source[key := Obj(data, Some(s.clock + tick))], clock := s.clock + tick, torn := s.torn - {key})
    case Remove(key) => s.(source := s.source - {key}, torn := s.torn - {key})
    case NewCycle(pending) =>
      if AllDone(s.workers) then
        s.(workers := map k | k in pending :: Queued, copied := {}, written := {}, aborted := {}, sent := [])
      else s
  }

  function Run(env: Env, s: Pool, es: seq<Event>): Pool {
    if es == [] then s else Step(env, Run(env, s, es[..|es| - 1]), es[|es| - 1])
  }

  lemma RunSnoc(env: Env, s: Pool, es: seq<Event>, e: Event)
    ensures Run(env, s, es + [e]) == Step(env, Run(env, s, es), e)
  {
    assert (es + [e])[..|es|] == es;
  }

  /** Both pools agree on everything about file k. */
  predicate SameOn(s: Pool, t: Pool, k: string) {
    && t.source == s.source && t.clock >= s.clock
    && (k in t.workers <==> k in s.workers) && (k in s.workers ==> t.workers[k] == s.workers[k])
    && (k in t.target <==> k in s.target) && (k in s.target ==> t.target[k] == s.target[k])
    && (k in t.landing <==> k in s.landing) && (k in s.landing ==> t.landing[k] == s.landing[k])
    && (k in t.taken <==> k in s.taken) && (k in s.taken ==> t.taken[k] == s.taken[k])
    && (k in t.torn <==> k in s.torn)
  }

  predicate SameSetsOn(s: Pool, t: Pool, k: string) {
    && (k in t.copied <==> k in s.copied) && (k in t.written <==> k in s.written)
    && (k in t.aborted <==> k in s.aborted) && (k in t.sent <==> k in s.sent)
  }

  lemma BeginTouchesOnly(env: Env, s: Pool, key: string, f: Fault, k: string)
    requires k != key
    ensures SameOn(s, BeginCopy(env, s, key, f), k) && SameSetsOn(s, BeginCopy(env, s, key, f), k)
  {
  }

  lemma LandedTouchesOnly(s: Pool, key: string, data: Bytes, k: string)
    requires k != key
    ensures var t := Landed(s, key, data).(workers := s.workers[key := Returned], copied := s.copied + {key});
      SameOn(s, t, k) && SameSetsOn(s, t, k)
  {
  }

  lemma PublishTouchesOnly(s: Pool, key: string, f: Fault, k: string)
    requires k != key
    ensures SameOn(s, Publish(s, key, f), k) && SameSetsOn(s, Publish(s, key, f), k)
  {
  }

  lemma SetWorkerTouchesOnly(s: Pool, key: string, w: Worker, k: string)
    requires k != key
    ensures SameOn(s, SetWorker(s, key, w), k) && SameSetsOn(s, SetWorker(s, key, w), k)
  {
  }

  /** A worker's step leaves every other file alone. */
  lemma WorkTouchesOnly(env: Env, s: Pool, key: string, f: Fault, k: string)
    requires key in s.workers && k != key
    ensures SameOn(s, Work1(env, s, key, f), k) && SameSetsOn(s, Work1(env, s, key, f), k)
  {
    match s.workers[key]
    case Queued => SetWorkerTouchesOnly(s, key, AfterSource(env, s.source, key, f), k);
    case SawSource(time) => SetWorkerTouchesOnly(s, key, AfterTarget(env, s.target, key, time, f), k);
    case MustCopy => BeginTouchesOnly(env, s, key, f, k);
    case Copying(data) => LandedTouchesOnly(s, key, data, k);
    case Returned => PublishTouchesOnly(s, key, f, k);
    case Done(_) =>
  }

  // ---- The gate over whole runs ----

  predicate NotAfter(objects: map<string, Obj>, key: string, clock: int) {
    key in objects && objects[key].modified.Some? ==> objects[key].modified.value <= clock
  }

  /** The gate misjudges exactly the torn files. */
  predicate GateInvFor(s: Pool, k: string) {
    && NotAfter(s.source, k, s.clock) && NotAfter(s.target, k, s.clock)
    && (k in s.torn <==> !GateSound(s.source, s.target, k))
  }

  ghost predicate GateInv(s: Pool) {
    forall k :: GateInvFor(s, k)
  }

  /** The clock moves on before each source write. */
  ghost predicate Ticking(es: seq<Event>) {
    forall i :: 0 <= i < |es| && es[i].Write? ==> es[i].tick > 0
  }

  /**
   A copy that lands leaves its file's gate sound if and only if the source is gone, undated, or still has
   those bytes.
   */
  lemma LandingKeepsGateExactly(s: Pool, key: string, data: Bytes)
    requires GateInvFor(s, key)
    ensures var t := Landed(s, key, data);
      && GateInvFor(t, key)
      && (GateSound(t.source, t.target, key) <==>
          key !in s.source || s.source[key].modified.None? || s.source[key].data == data)
  {
  }

  lemma LandingTouchesOnly(s: Pool, key: string, data: Bytes, k: string)
    requires k != key && GateInvFor(s, k)
    ensures GateInvFor(Landed(s, key, data), k)
  {
  }

  lemma WorkKeepsOwnGate(env: Env, s: Pool, key: string, f: Fault)
    requires key in s.workers && GateInvFor(s, key)
    ensures GateInvFor(Work1(env, s, key, f), key)
  {
    if s.workers[key].Copying? {
      LandingKeepsGateExactly(s, key, s.workers[key].data);
    }
  }

  lemma WorkKeepsOtherGate(env: Env, s: Pool, key: string, f: Fault, k: string)
    requires key in s.workers && k != key && GateInvFor(s, k)
    ensures GateInvFor(Work1(env, s, key, f), k)
  {
    WorkTouchesOnly(env, s, key, f, k);
  }

  lemma StepKeepsGate(env: Env, s: Pool, e: Event)
    requires GateInv(s) && (e.Write? ==> e.tick > 0)
    ensures GateInv(Step(env, s, e))
  {
    forall k ensures GateInvFor(Step(env, s, e), k) {
      assert GateInvFor(s, k);
      if e.Work? && e.key in s.workers {
        if k == e.key {
          WorkKeepsOwnGate(env, s, k, e.fault);
        } else {
          WorkKeepsOtherGate(env, s, e.key, e.fault, k);
        }
      } else if e.Land? && e.key in s.landing {
        if k == e.key {
          LandingKeepsGateExactly(s, k, s.landing[k]);
        } else {
          LandingTouchesOnly(s, e.key, s.landing[e.key], k);
        }
      }
    }
  }

  /**
   Over every run of source writes, removals, worker steps, landings, aborts, faults and cycles:
   a target not older than its source has the source's bytes, except for exactly the torn files.
   */
  lemma {:induction false} GateSoundness(env: Env, s: Pool, es: seq<Event>, key: string)
    requires GateInv(s) && Ticking(es)
    ensures GateInv(Run(env, s, es))
    ensures GateSound(Run(env, s, es).source, Run(env, s, es).target, key) <==> key !in Run(env, s, es).torn
  {
    if es != [] {
      GateSoundness(env, s, es[..|es| - 1], key);
      StepKeepsGate(env, Run(env, s, es[..|es| - 1]), es[|es| - 1]);
    }
    assert GateInvFor(Run(env, s, es), key);
  }

  /** Any copy of key that is under way carries these bytes. */
  predicate CarriesOnly(s: Pool, key: string, data: Bytes) {
    && (key in s.workers && s.workers[key].Copying? ==> s.workers[key].data == data)
    && (key in s.landing ==> s.landing[key] == data)
  }

  /** No source write with other bytes ever lands on a file whose copy is under way. */
  ghost predicate NoWriteDuringCopy(env: Env, s: Pool, es: seq<Event>) {
    forall i :: 0 <= i < |es| && es[i].Write? ==> CarriesOnly(Run(env, s, es[..i]), es[i].key, es[i].data)
  }

  predicate UntornFor(s: Pool, k: string) {
    k !in s.torn && (k in s.source ==> CarriesOnly(s, k, s.source[k].data))
  }

  lemma BeginKeepsUntorn(env: Env, s: Pool, key: string, f: Fault)
    requires key in s.workers && s.workers[key].MustCopy? && UntornFor(s, key)
    ensures UntornFor(Work1(env, s, key, f), key)
  {
  }

  lemma CopiedKeepsUntorn(env: Env, s: Pool, key: string, f: Fault)
    requires key in s.workers && s.workers[key].Copying? && UntornFor(s, key)
    ensures UntornFor(Work1(env, s, key, f), key)
  {
  }

  lemma OtherwiseKeepsUntorn(env: Env, s: Pool, key: string, f: Fault)
    requires key in s.workers && !s.workers[key].MustCopy? && !s.workers[key].Copying? && UntornFor(s, key)
    ensures UntornFor(Work1(env, s, key, f), key)
  {
  }

  lemma WorkKeepsUntorn(env: Env, s: Pool, key: string, f: Fault)
    requires key in s.workers && UntornFor(s, key)
    ensures UntornFor(Work1(env, s, key, f), key)
  {
    if s.workers[key].MustCopy? {
      BeginKeepsUntorn(env, s, key, f);
    } else if s.workers[key].Copying? {
      CopiedKeepsUntorn(env, s, key, f);
    } else {
      OtherwiseKeepsUntorn(env, s, key, f);
    }
  }

  lemma WorkKeepsOtherUntorn(env: Env, s: Pool, key: string, f: Fault, k: string)
    requires key in s.workers && k != key && UntornFor(s, k)
    ensures UntornFor(Work1(env, s, key, f), k)
  {
    WorkTouchesOnly(env, s, key, f, k);
  }

  lemma StepKeepsUntorn(env: Env, s: Pool, e: Event, k: string)
    requires UntornFor(s, k) && (e.Write? && e.key == k ==> CarriesOnly(s, k, e.data))
    ensures UntornFor(Step(env, s, e), k)
  {
    if e.Work? && e.key in s.workers {
      if e.key == k {
        WorkKeepsUntorn(env, s, k, e.fault);
      } else {
        WorkKeepsOtherUntorn(env, s, e.key, e.fault, k);
      }
    }
  }

  lemma {:induction false} UntornRun(env: Env, s: Pool, es: seq<Event>, k: string)
    requires UntornFor(s, k) && NoWriteDuringCopy(env, s, es)
    ensures UntornFor(Run(env, s, es), k)
  {
    if es != [] {
      var front, e := es[..|es| - 1], es[|es| - 1];
      forall i | 0 <= i < |front| && front[i].Write?
        ensures CarriesOnly(Run(env, s, front[..i]), front[i].key, front[i].data)
      {
        assert front[..i] == es[..i] && front[i] == es[i];
      }
      UntornRun(env, s, front, k);
      StepKeepsUntorn(env, Run(env, s, front), e, k);
    }
  }

  /** With copies that no other bytes overtake, the gate is sound in every reachable state. */
  lemma GateSoundWithoutOvertaking(env: Env, s: Pool, es: seq<Event>, key: string)
    requires GateInv(s) && UntornFor(s, key)
    requires Ticking(es) && NoWriteDuringCopy(env, s, es)
    ensures GateSound(Run(env, s, es).source, Run(env, s, es).target, key)
  {
    UntornRun(env, s, es, key);
    GateSoundness(env, s, es, key);
  }

  /**
   Why the clock must move: a write keeps its file's gate sound if and only if the clock
   ticked, the target is older than the clock (or absent, or undated), or the bytes are the target's.
   */
  lemma WriteKeepsGateExactly(env: Env, s: Pool, key: string, data: Bytes, tick: nat)
    requires GateInv(s)
    ensures var t := Step(env, s, Write(key, data, tick));
      GateSound(t.source, t.target, key) <==>
        (tick > 0 || key !in s.target || s.target[key].modified.None?
         || s.target[key].modified.value < s.clock || s.target[key].data == data)
  {
    assert GateInvFor(s, key);
  }

  function DataOf(objects: map<string, Obj>, key: string): Option<Bytes> {
    if key in objects then Some(objects[key].data) else None
  }

  /**
   Without that hypothesis the gate can be fooled, on every provider: the copy ends newer than the write
   it missed.
   */
  lemma OvertakenCopyFoolsGate(env: Env, key: string, first: Bytes, second: Bytes)
    requires env.validKey(key) && env.provider != Other && first != second
    ensures var ok := Fault(false, false, false, false);
      var start := OneFile(key, first);
      var es := [Work(key, ok)] + [Work(key, ok)] + [Work(key, ok)] + [Write(key, second, 1)] + [Landing(env, key)];
      var end := Run(env, start, es);
      && GateInv(start) && end.torn == {key}
      && DataOf(end.source, key) == Some(second) && DataOf(end.target, key) == Some(first)
      && !NeedsCopy(World(end.source, end.target, end.clock, []), key)
  {
    var ok := Fault(false, false, false, false);
    var es := [Work(key, ok)] + [Work(key, ok)] + [Work(key, ok)];
    Started(env, key, first);
    RunSnoc(env, OneFile(key, first), es, Write(key, second, 1));
    RunSnoc(env, OneFile(key, first), es + [Write(key, second, 1)], Landing(env, key));
  }

  /** The event that lands a copy under way. */
  function Landing(env: Env, key: string): Event {
    if env.provider == Azure then Land(key) else Work(key, Fault(false, false, false, false))
  }

  function OneFileAt(key: string, data: Bytes, w: Worker): Pool {
    Pool(map[key := Obj(data, Some(0))], map[], 0, map[key := w], map[], map[], {}, {}, {}, [], {})
  }

  /** One new file, waiting for its worker. */
  function OneFile(key: string, data: Bytes): Pool {
    OneFileAt(key, data, Queued)
  }

  lemma ReadsHeads(env: Env, key: string, data: Bytes, f: Fault)
    requires env.validKey(key) && env.provider != Other && f == Fault(false, false, false, false)
    ensures Step(env, OneFileAt(key, data, Queued), Work(key, f)) == OneFileAt(key, data, SawSource(0))
    ensures Step(env, OneFileAt(key, data, SawSource(0)), Work(key, f)) == OneFileAt(key, data, MustCopy)
  {
    assert map[key := Queued][key := SawSource(0)] == map[key := SawSource(0)];
    assert map[key := SawSource(0)][key := MustCopy] == map[key := MustCopy];
  }

  /** Where one clean copy stands once it was started. */
  function Begun(env: Env, key: string, data: Bytes): Pool {
    if env.provider == Azure then
      OneFileAt(key, data, Returned).(landing := map[key := data], taken := map[key := data], copied := {key})
    else OneFileAt(key, data, Copying(data)).(taken := map[key := data])
  }

  lemma BeginsCopy(env: Env, key: string, data: Bytes, f: Fault)
    requires f == Fault(false, false, false, false)
    ensures Step(env, OneFileAt(key, data, MustCopy), Work(key, f)) == Begun(env, key, data)
  {
    assert map[key := MustCopy][key := Returned] == map[key := Returned];
    assert map[key := MustCopy][key := Copying(data)] == map[key := Copying(data)];
  }

  /** After three clean steps the copy of a new file has been started. */
  lemma Started(env: Env, key: string, data: Bytes)
    requires env.validKey(key) && env.provider != Other
    ensures var ok := Fault(false, false, false, false);
      Run(env, OneFile(key, data), [Work(key, ok)] + [Work(key, ok)] + [Work(key, ok)]) == Begun(env, key, data)
  {
    var s, w := OneFile(key, data), Work(key, Fault(false, false, false, false));
    assert [] + [w] == [w];
    RunSnoc(env, s, [], w);
    RunSnoc(env, s, [w], w);
    RunSnoc(env, s, [w] + [w], w);
    ReadsHeads(env, key, data, w.fault);
    BeginsCopy(env, key, data, w.fault);
  }

  // ---- Notifications and bytes ----

  ghost predicate SentInv(env: Env, s: Pool) {
    && NoDup(s.sent)
    && (forall k :: SentInvFor(env, s, k) && BytesInvFor(s, k))
  }

  /** The target has the bytes that the file's latest copy read. */
  predicate Arrived(s: Pool, k: string) {
    k in s.target && k in s.taken && s.target[k].data == s.taken[k]
  }

  predicate BytesInvFor(s: Pool, k: string) {
    && (k in s.landing ==> k in s.taken && s.landing[k] == s.taken[k])
    && (k in s.workers && s.workers[k].Copying? ==> k in s.taken && s.workers[k].data == s.taken[k])
    && (k in s.copied && k in s.written ==> Arrived(s, k))
  }

  lemma BeginKeepsBytes(env: Env, s: Pool, key: string, f: Fault)
    requires key in s.workers && s.workers[key].MustCopy? && SentInvFor(env, s, key) && BytesInvFor(s, key)
    ensures BytesInvFor(Work1(env, s, key, f), key)
  {
  }

  lemma CopiedKeepsBytes(env: Env, s: Pool, key: string, f: Fault)
    requires key in s.workers && s.workers[key].Copying? && SentInvFor(env, s, key) && BytesInvFor(s, key)
    ensures BytesInvFor(Work1(env, s, key, f), key)
  {
  }

  lemma OtherwiseKeepsBytes(env: Env, s: Pool, key: string, f: Fault)
    requires key in s.workers && !s.workers[key].MustCopy? && !s.workers[key].Copying?
    requires SentInvFor(env, s, key) && BytesInvFor(s, key)
    ensures BytesInvFor(Work1(env, s, key, f), key)
  {
  }

  lemma WorkKeepsBytes(env: Env, s: Pool, key: string, f: Fault)
    requires key in s.workers && SentInvFor(env, s, key) && BytesInvFor(s, key)
    ensures BytesInvFor(Work1(env, s, key, f), key)
  {
    if s.workers[key].MustCopy? {
      BeginKeepsBytes(env, s, key, f);
    } else if s.workers[key].Copying? {
      CopiedKeepsBytes(env, s, key, f);
    } else {
      OtherwiseKeepsBytes(env, s, key, f);
    }
  }

  lemma WorkKeepsOtherBytes(env: Env, s: Pool, key: string, f: Fault, k: string)
    requires key in s.workers && k != key && BytesInvFor(s, k)
    ensures BytesInvFor(Work1(env, s, key, f), k)
  {
    WorkTouchesOnly(env, s, key, f, k);
  }

  lemma EventKeepsBytes(env: Env, s: Pool, e: Event, k: string)
    requires !e.Work? && BytesInvFor(s, k)
    ensures BytesInvFor(Step(env, s, e), k)
  {
  }

  predicate CopyReturned(w: Worker) {
    w == Returned || w == Done(DoneCopied) || w == Done(DoneUnsent)
  }

  predicate SentInvFor(env: Env, s: Pool, k: string) {
    && (k in s.sent <==> k in s.workers && s.workers[k] == Done(DoneCopied))
    && (k in s.copied <==> k in s.workers && CopyReturned(s.workers[k]))
    && (k in s.copied ==> (k in s.written <==> k !in s.landing && k !in s.aborted))
    && (k in s.copied ==> !(k in s.landing && k in s.aborted))
    && (env.provider != Azure ==> k !in s.landing && k !in s.aborted)
    && (env.provider == Azure ==> !(k in s.workers && s.workers[k].Copying?))
  }

  lemma BeginKeepsSent(env: Env, s: Pool, key: string, f: Fault)
    requires key in s.workers && s.workers[key].MustCopy? && SentInvFor(env, s, key)
    ensures SentInvFor(env, Work1(env, s, key, f), key)
  {
  }

  lemma CopiedKeepsSent(env: Env, s: Pool, key: string, f: Fault)
    requires key in s.workers && s.workers[key].Copying? && SentInvFor(env, s, key)
    ensures SentInvFor(env, Work1(env, s, key, f), key)
  {
  }

  lemma OtherwiseKeepsSent(env: Env, s: Pool, key: string, f: Fault)
    requires key in s.workers && !s.workers[key].MustCopy? && !s.workers[key].Copying? && SentInvFor(env, s, key)
    ensures SentInvFor(env, Work1(env, s, key, f), key)
  {
  }

  lemma WorkKeepsSent(env: Env, s: Pool, key: string, f: Fault)
    requires key in s.workers && SentInvFor(env, s, key)
    ensures SentInvFor(env, Work1(env, s, key, f), key)
  {
    if s.workers[key].MustCopy? {
      BeginKeepsSent(env, s, key, f);
    } else if s.workers[key].Copying? {
      CopiedKeepsSent(env, s, key, f);
    } else {
      OtherwiseKeepsSent(env, s, key, f);
    }
  }

  lemma WorkKeepsOtherSent(env: Env, s: Pool, key: string, f: Fault, k: string)
    requires key in s.workers && k != key && SentInvFor(env, s, k)
    ensures SentInvFor(env, Work1(env, s, key, f), k)
  {
    WorkTouchesOnly(env, s, key, f, k);
  }

  lemma EventKeepsSent(env: Env, s: Pool, e: Event, k: string)
    requires !e.Work? && SentInvFor(env, s, k)
    ensures SentInvFor(env, Step(env, s, e), k)
  {
  }

  lemma FileKeepsSent(env: Env, s: Pool, e: Event, k: string)
    requires SentInvFor(env, s, k) && BytesInvFor(s, k)
    ensures SentInvFor(env, Step(env, s, e), k) && BytesInvFor(Step(env, s, e), k)
  {
    if !e.Work? {
      EventKeepsSent(env, s, e, k);
      EventKeepsBytes(env, s, e, k);
    } else if e.key in s.workers {
      if k == e.key {
        WorkKeepsSent(env, s, k, e.fault);
        WorkKeepsBytes(env, s, k, e.fault);
      } else {
        WorkKeepsOtherSent(env, s, e.key, e.fault, k);
        WorkKeepsOtherBytes(env, s, e.key, e.fault, k);
      }
    }
  }

  lemma StepKeepsSent(env: Env, s: Pool, e: Event)
    requires SentInv(env, s)
    ensures SentInv(env, Step(env, s, e))
  {
    var t := Step(env, s, e);
    forall k ensures SentInvFor(env, t, k) && BytesInvFor(t, k) {
      FileKeepsSent(env, s, e, k);
    }
    if e.Work? && e.key in s.workers {
      assert SentInvFor(env, s, e.key);
      assert t.sent == s.sent || (t.sent == s.sent + [e.key] && e.key !in s.sent);
    }
  }

  lemma SentMeans(env: Env, s: Pool)
    requires SentInv(env, s)
    ensures forall k :: k in s.sent <==> k in s.workers && s.workers[k] == Done(DoneCopied)
    ensures forall k :: k in s.copied <==> k in s.workers && CopyReturned(s.workers[k])
    ensures forall k :: k in s.copied ==> (k in s.written <==> k !in s.landing && k !in s.aborted)
    ensures env.provider != Azure ==> forall k :: k !in s.landing && k !in s.aborted
    ensures forall k :: k in s.copied && k in s.written ==> Arrived(s, k)
  {
    forall k
      ensures k in s.sent <==> k in s.workers && s.workers[k] == Done(DoneCopied)
      ensures k in s.copied <==> k in s.workers && CopyReturned(s.workers[k])
      ensures k in s.copied ==> (k in s.written <==> k !in s.landing && k !in s.aborted)
      ensures env.provider != Azure ==> k !in s.landing && k !in s.aborted
      ensures k in s.copied && k in s.written ==> Arrived(s, k)
    {
      assert SentInvFor(env, s, k) && BytesInvFor(s, k);
    }
  }

  /**
   Over every interleaving and every failure, a path is published at most once per cycle and only
   after its copy returned. That copy has landed if and only if it is neither still landing nor aborted,
   off Azure always, and then the target holds what it read. Once all workers are done, exactly the
   copied files were published if and only if no send raised.
   */
  lemma {:induction false} NotificationsFollowBytes(env: Env, s: Pool, es: seq<Event>)
    requires SentInv(env, s)
    ensures var t := Run(env, s, es);
      && SentInv(env, t) && NoDup(t.sent)
      && (forall k :: k in t.sent ==> k in t.copied)
      && (forall k :: k in t.sent ==> (k in t.written <==> k !in t.landing && k !in t.aborted))
      && (forall k :: k in t.sent && k in t.written ==> Arrived(t, k))
      && (env.provider != Azure ==> forall k :: k in t.sent ==> Arrived(t, k))
      && (AllDone(t.workers) ==>
            ((forall k :: k in t.copied ==> k in t.sent) <==>
             forall k :: k in t.workers ==> t.workers[k] != Done(DoneUnsent)))
  {
    if es != [] {
      var before := Run(env, s, es[..|es| - 1]);
      NotificationsFollowBytes(env, s, es[..|es| - 1]);
      StepKeepsSent(env, before, es[|es| - 1]);
    }
    var t := Run(env, s, es);
    SentMeans(env, t);
    if AllDone(t.workers) && forall k :: k in t.copied ==> k in t.sent {
      forall k | k in t.workers ensures t.workers[k] != Done(DoneUnsent) {
        assert k in t.copied ==> k in t.sent;
      }
    }
  }

  /** On Azure the notification can come first, and can stay the only thing that ever comes. */
  lemma AzureCanNotifyWithoutBytes(env: Env, key: string, data: Bytes)
    requires env.validKey(key) && env.provider == Azure
    ensures var ok := Fault(false, false, false, false);
      var es := [Work(key, ok)] + [Work(key, ok)] + [Work(key, ok)] + [Work(key, ok)];
      var published, ended := Run(env, OneFile(key, data), es), Run(env, OneFile(key, data), es + [Abort(key)]);
      && published.sent == [key] && key in published.landing && key !in published.target
      && AllDone(ended.workers) && ended.sent == [key] && ended.landing == map[] && key !in ended.target
  {
    var ok := Fault(false, false, false, false);
    var es := [Work(key, ok)] + [Work(key, ok)] + [Work(key, ok)];
    Started(env, key, data);
    RunSnoc(env, OneFile(key, data), es, Work(key, ok));
    RunSnoc(env, OneFile(key, data), es + [Work(key, ok)], Abort(key));
  }

  // ---- Schedules do not matter on a quiet source ----

  function ResultOf(env: Env, w: World, key: string): Result {
    match CopyOutcome(env, w, key)
    case Raised => DoneFailed
    case Copied => if env.fault(key).send then DoneUnsent else DoneCopied
    case _ => DoneSkipped
  }

  /** The bytes the sequential program leaves under key. */
  function FinalData(env: Env, w: World, key: string): Option<Bytes> {
    DataOf(if CopyOutcome(env, w, key) == Copied then w.source else w.target, key)
  }

  predicate Untouched(w: World, s: Pool, key: string) {
    && key !in s.landing
    && (key in s.target <==> key in w.target) && (key in w.target ==> s.target[key] == w.target[key])
  }

  /** The copy is still landing with the source's bytes, or the target is as it should end up. */
  predicate Settling(env: Env, w: World, s: Pool, key: string) {
    if key in s.landing then CopyOutcome(env, w, key) == Copied && Some(s.landing[key]) == DataOf(w.source, key)
    else DataOf(s.target, key) == FinalData(env, w, key)
  }

  /** Where key's worker stands, judged from the world the cycle started in. */
  predicate OnTrack(env: Env, w: World, s: Pool, key: string)
    requires key in s.workers
  {
    var o, f := CopyOutcome(env, w, key), env.fault(key);
    match s.workers[key]
    case Queued => Untouched(w, s, key)
    case SawSource(time) =>
      && Untouched(w, s, key) && env.validKey(key) && env.provider != Other
      && ReadHead(env.provider, Modified(w.source, key), f.sourceHead) == At(time)
    case MustCopy => Untouched(w, s, key) && o == AttemptCopy(f)
    case Copying(data) => Untouched(w, s, key) && o == Copied && Some(data) == DataOf(w.source, key)
    case Returned => o == Copied && Settling(env, w, s, key)
    case Done(r) => r == ResultOf(env, w, key) && Settling(env, w, s, key)
  }

  ghost predicate PoolInv(env: Env, w: World, pending: seq<string>, s: Pool) {
    && s.source == w.source
    && (forall k :: k in s.workers <==> k in pending)
    && (forall k :: k in s.workers ==> OnTrack(env, w, s, k))
    && (forall k :: k !in pending ==> k !in s.landing && DataOf(s.target, k) == DataOf(w.target, k))
  }

  /** A schedule: whose worker moves next, or whose Azure copy lands; each call raises as its fault script says. */
  ghost predicate IsSchedule(env: Env, es: seq<Event>) {
    forall i :: 0 <= i < |es| ==> es[i].Land? || (es[i].Work? && es[i].fault == env.fault(es[i].key))
  }

  function StartPool(w: World, pending: seq<string>): Pool {
    Pool(w.source, w.target, w.clock, map k | k in pending :: Queued, map[], map[], {}, {}, {}, [], {})
  }

  lemma HeadsStayOnTrack(env: Env, w: World, s: Pool, key: string)
    requires s.source == w.source && key in s.workers && OnTrack(env, w, s, key)
    requires s.workers[key].Queued? || s.workers[key].SawSource?
    ensures OnTrack(env, w, Work1(env, s, key, env.fault(key)), key)
  {
  }

  lemma BeginStaysOnTrack(env: Env, w: World, s: Pool, key: string)
    requires s.source == w.source && key in s.workers && OnTrack(env, w, s, key) && s.workers[key].MustCopy?
    ensures OnTrack(env, w, Work1(env, s, key, env.fault(key)), key)
  {
    MustCopyHasSource(env, w, key);
  }

  lemma MustCopyHasSource(env: Env, w: World, key: string)
    ensures CopyOutcome(env, w, key) == Copied ==> key in w.source
  {
  }

  lemma CopyStaysOnTrack(env: Env, w: World, s: Pool, key: string)
    requires s.source == w.source && key in s.workers && OnTrack(env, w, s, key)
    requires s.workers[key].Copying? || s.workers[key].Returned? || s.workers[key].Done?
    ensures OnTrack(env, w, Work1(env, s, key, env.fault(key)), key)
  {
  }

  lemma WorkStaysOnTrack(env: Env, w: World, s: Pool, key: string)
    requires s.source == w.source && key in s.workers && OnTrack(env, w, s, key)
    ensures var s' := Work1(env, s, key, env.fault(key));
      s'.source == w.source && key in s'.workers && OnTrack(env, w, s', key)
  {
    match s.workers[key]
    case Queued => HeadsStayOnTrack(env, w, s, key);
    case SawSource(_) => HeadsStayOnTrack(env, w, s, key);
    case MustCopy => BeginStaysOnTrack(env, w, s, key);
    case Copying(_) => CopyStaysOnTrack(env, w, s, key);
    case Returned => CopyStaysOnTrack(env, w, s, key);
    case Done(_) => CopyStaysOnTrack(env, w, s, key);
  }

  lemma WorkLeavesOthers(env: Env, w: World, s: Pool, key: string, other: string)
    requires key in s.workers && key != other
    ensures var s' := Work1(env, s, key, env.fault(key));
      && (other in s'.workers <==> other in s.workers)
      && (other in s.workers && OnTrack(env, w, s, other) ==> OnTrack(env, w, s', other))
      && (other in s'.landing <==> other in s.landing)
      && DataOf(s'.target, other) == DataOf(s.target, other)
  {
    WorkTouchesOnly(env, s, key, env.fault(key), other);
  }

  lemma LandStaysOnTrack(env: Env, w: World, s: Pool, key: string, k: string)
    requires k in s.workers && OnTrack(env, w, s, k)
    ensures OnTrack(env, w, Step(env, s, Land(key)), k)
  {
  }

  lemma MoveStaysOnTrack(env: Env, w: World, pending: seq<string>, s: Pool, e: Event)
    requires PoolInv(env, w, pending, s)
    requires e.Land? || (e.Work? && e.fault == env.fault(e.key))
    ensures PoolInv(env, w, pending, Step(env, s, e))
  {
    if e.Land? {
      forall k | k in s.workers { LandStaysOnTrack(env, w, s, e.key, k); }
    } else if e.key in s.workers {
      WorkStaysOnTrack(env, w, s, e.key);
      forall k | k != e.key { WorkLeavesOthers(env, w, s, e.key, k); }
    }
  }

  lemma {:induction false} ScheduleStaysOnTrack(env: Env, w: World, pending: seq<string>, es: seq<Event>)
    requires IsSchedule(env, es)
    ensures PoolInv(env, w, pending, Run(env, StartPool(w, pending), es))
  {
    if es != [] {
      ScheduleStaysOnTrack(env, w, pending, es[..|es| - 1]);
      MoveStaysOnTrack(env, w, pending, Run(env, StartPool(w, pending), es[..|es| - 1]), es[|es| - 1]);
    }
  }

  /** Adding up results in submission order, as run does over executor.map. */
  function AddUp(workers: map<string, Worker>, t: Tally, pending: seq<string>): Tally
    requires forall k :: k in pending ==> k in workers && workers[k].Done?
    decreases |pending|
  {
    if pending == [] then t
    else
      assert pending[0] in pending;
      var t' := match workers[pending[0]].result
        case DoneCopied => t.(copied := t.copied + 1)
        case DoneSkipped => t.(skipped := t.skipped + 1)
        case DoneUnsent => t.(failed := t.failed + 1)
        case DoneFailed => t.(failed := t.failed + 1);
      AddUp(workers, t', pending[1..])
  }

  lemma {:induction false} SequentialByFile(
    env: Env, w: World, v: World, t: Tally, keys: seq<string>, workers: map<string, Worker>)
    requires NoDup(keys) && SameForAll(v, w, keys)
    requires forall k :: k in keys ==> DataOf(v.target, k) == DataOf(w.target, k)
    requires forall k :: k in keys ==> k in workers && workers[k] == Done(ResultOf(env, w, k))
    ensures var (v', t') := ProcessAll(env, v, t, keys);
      && (forall k :: k in keys ==> DataOf(v'.target, k) == FinalData(env, w, k))
      && (forall k :: k !in keys ==> DataOf(v'.target, k) == DataOf(v.target, k))
      && t' == AddUp(workers, t, keys)
      && (forall k :: k in v'.sent <==> k in v.sent || (k in keys && ResultOf(env, w, k) == DoneCopied))
    decreases |keys|
  {
    if keys != [] {
      var k := keys[0];
      assert k in keys;
      var (v', t') := ProcessFile(env, v, t, k);
      OutcomeLocal(env, v, w, k);
      NextSameForAll(env, v, t, w, keys);
      assert forall j :: j in keys <==> j == k || j in keys[1..];
      assert k !in keys[1..];
      SequentialByFile(env, w, v', t', keys[1..], workers);
    }
  }

  /**
   Whatever order the pool's steps take, once all workers are done and Azure's copies have landed the
   target bytes, the set of published paths and the counts are those of the sequential loop.
   */
  lemma SchedulesDoNotMatter(env: Env, w: World, pending: seq<string>, es: seq<Event>, skipped: nat)
    requires NoDup(pending) && w.sent == [] && IsSchedule(env, es)
    requires var s := Run(env, StartPool(w, pending), es); AllDone(s.workers) && s.landing == map[]
    ensures var s := Run(env, StartPool(w, pending), es);
      var (v, t) := ProcessAll(env, w, Tally(0, skipped, 0), pending);
      && (forall k :: DataOf(s.target, k) == DataOf(v.target, k))
      && (forall k :: k in s.sent <==> k in v.sent)
      && (forall k :: k in pending ==> k in s.workers && s.workers[k].Done?)
      && t == AddUp(s.workers, Tally(0, skipped, 0), pending)
  {
    var s := Run(env, StartPool(w, pending), es);
    ScheduleStaysOnTrack(env, w, pending, es);
    forall k | k in pending ensures k in s.workers && s.workers[k] == Done(ResultOf(env, w, k)) {
      assert OnTrack(env, w, s, k);
    }
    NotificationsFollowBytes(env, StartPool(w, pending), es);
    SentMeans(env, s);
    SequentialByFile(env, w, w, Tally(0, skipped, 0), pending, s.workers);
    var v := ProcessAll(env, w, Tally(0, skipped, 0), pending).0;
    forall k ensures DataOf(s.target, k) == DataOf(v.target, k) {
      if k in pending {
        assert OnTrack(env, w, s, k);
      }
    }
  }
}
