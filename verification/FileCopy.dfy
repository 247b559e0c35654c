/**
 One file-synchronisation cycle: the timestamp-gated copy of
 utils/data_transection.py, the producer's file-by-file cycle
 (blueprints/producer/file/adaptor/main.py) and the consumer's fast cycle
 (blueprints/consumer/file/extractor/main.py), which lists both sides once and
 touches only the files its pre-filter flags. The main result says exactly when
 the fast cycle equals the slow one.

 The cloud SDKs are abstract: each file has a fault script saying which of its
 network calls raise. The object-key check is any predicate on names.

 Here a copy has landed when its call returns, as it has on S3 and GCS. On Azure
 the call only starts the copy: read the results there as being about copies that
 landed before anything looked at the target again. FilePoolCycles says exactly
 what a copy that is still landing, or was aborted, changes about them.
 */
module FileCopy {
  import opened Wrappers
  import opened Seqs

  type Bytes = seq<bv8>

  datatype Provider = Azure | Aws | Gcp | Other

  /** A stored object; `modified` is None when the listing carries no last-modified time. */
  datatype Obj = Obj(data: Bytes, modified: Option<int>)

  /** Which calls for one file raise: reading either timestamp, the copy, the Kafka send. */
  datatype Fault = Fault(sourceHead: bool, targetHead: bool, copy: bool, send: bool)

  datatype Env = Env(provider: Provider, validKey: string -> bool, fault: string -> Fault)

  /** Both containers, the clock that stamps writes to the target, and the paths sent to Kafka. */
  datatype World = World(source: map<string, Obj>, target: map<string, Obj>, clock: int, sent: seq<string>)

  datatype Tally = Tally(copied: nat, skipped: nat, failed: nat)

  /** What reading a last-modified time yields. */
  datatype Head = At(time: int) | Absent | HeadRaised

  function Modified(objects: map<string, Obj>, key: string): Option<int> {
    if key in objects then objects[key].modified else None
  }

  /** Azure treats any error as an absent blob; S3 and GCS let it out. */
  function ReadHead(provider: Provider, modified: Option<int>, faulty: bool): Head {
    if faulty then (if provider == Azure then Absent else HeadRaised)
    else if modified.Some? then At(modified.value)
    else Absent
  }

  datatype Outcome = Copied | UpToDate | SourceMissing | Unsupported | Raised

  /** The decision and effect of file_copy(key, key), before any write. */
  function CopyOutcome(env: Env, w: World, key: string): Outcome {
    var f := env.fault(key);
    if !env.validKey(key) then Raised
    else if env.provider == Other then Unsupported
    else match ReadHead(env.provider, Modified(w.source, key), f.sourceHead)
      case HeadRaised => Raised
      case Absent => SourceMissing
      case At(sourceTime) =>
        match ReadHead(env.provider, Modified(w.target, key), f.targetHead)
        case HeadRaised => Raised
        case At(targetTime) => if sourceTime <= targetTime then UpToDate else AttemptCopy(f)
        case Absent => AttemptCopy(f)
  }

  function AttemptCopy(f: Fault): Outcome {
    if f.copy then Raised else Copied
  }

  /** The key is accepted, the source's time is read, and the target reads as absent or older. */
  predicate GateOpens(env: Env, w: World, key: string) {
    var f := env.fault(key);
    && env.validKey(key) && env.provider != Other
    && !f.sourceHead && Modified(w.source, key).Some?
    && if f.targetHead then env.provider == Azure
       else Modified(w.target, key).None? || Modified(w.target, key).value < Modified(w.source, key).value
  }

  /** The conditions under which a copy goes through, all of them. */
  predicate MustMove(env: Env, w: World, key: string) {
    GateOpens(env, w, key) && !env.fault(key).copy
  }

  /** When file_copy raises: on a rejected key, on a time that S3 or GCS cannot read, or in the copy itself. */
  predicate MustRaise(env: Env, w: World, key: string) {
    var f := env.fault(key);
    || !env.validKey(key)
    || (env.provider in {Aws, Gcp} && (f.sourceHead || (f.targetHead && Modified(w.source, key).Some?)))
    || (GateOpens(env, w, key) && f.copy)
  }

  /** The source's time is read, and the target's is read as no older. */
  predicate IsCurrent(env: Env, w: World, key: string) {
    var f, s, t := env.fault(key), Modified(w.source, key), Modified(w.target, key);
    && env.validKey(key) && env.provider != Other && !f.sourceHead && !f.targetHead
    && s.Some? && t.Some? && t.value >= s.value
  }

  lemma CopiedHasSource(env: Env, w: World, key: string)
    requires CopyOutcome(env, w, key) == Copied
    ensures key in w.source
  {
  }

  /** file_copy: the target gets the source's bytes under a new time stamp. */
  function AfterCopy(env: Env, w: World, key: string): World {
    if CopyOutcome(env, w, key) == Copied then
      CopiedHasSource(env, w, key);
      w.(target := w.target[key := Obj(w.source[key].data, Some(w.clock + 1))], clock := w.clock + 1)
    else w
  }

  /** Copy one file and publish its path when bytes moved; returns the new world and tally. */
  function ProcessFile(env: Env, w: World, t: Tally, key: string): (World, Tally) {
    var o := CopyOutcome(env, w, key);
    var w' := AfterCopy(env, w, key);
    match o
    case Raised => (w', t.(failed := t.failed + 1))
    case Copied =>
      if env.fault(key).send then (w', t.(failed := t.failed + 1))
      else (w'.(sent := w'.sent + [key]), t.(copied := t.copied + 1))
    case _ => (w', t.(skipped := t.skipped + 1))
  }

  function ProcessAll(env: Env, w: World, t: Tally, keys: seq<string>): (World, Tally)
    decreases |keys|
  {
    if keys == [] then (w, t)
    else
      var (w', t') := ProcessFile(env, w, t, keys[0]);
      ProcessAll(env, w', t', keys[1..])
  }

  /** The pre-filter: a file without a source time is left to file_copy to judge. */
  predicate NeedsCopy(w: World, key: string) {
    var s, t := Modified(w.source, key), Modified(w.target, key);
    s.None? || t.None? || s.value > t.value
  }

  function Pending(w: World): string -> bool {
    (key: string) => NeedsCopy(w, key)
  }

  /** A listing names each source object once; an unsupported provider lists nothing. */
  ghost predicate IsListing(env: Env, w: World, files: seq<string>) {
    && NoDup(files)
    && if env.provider == Other then files == [] else forall k :: k in files <==> k in w.source
  }

  /** The producer's cycle: file_copy on every listed file. */
  function SlowCycle(env: Env, w: World, files: seq<string>): (World, Tally) {
    ProcessAll(env, w, Tally(0, 0, 0), files)
  }

  /** The consumer's cycle, its pool run in submission order. */
  function FastCycle(env: Env, w: World, files: seq<string>): (World, Tally) {
    var pending := Select(files, Pending(w));
    ProcessAll(env, w, Cleared(files, pending), pending)
  }

  /** The files that are not pending count as skipped before the pool starts. */
  function Cleared(files: seq<string>, pending: seq<string>): Tally
    requires |pending| <= |files|
  {
    Tally(0, |files| - |pending|, 0)
  }

  /** The source's two programs, working on their own state. */
  class Pipeline {
    const env: Env
    var world: World
    var fileName: string

    constructor (env: Env, world: World)
      ensures this.env == env && this.world == world
    {
      this.env, this.world, fileName := env, world, "";
    }

    /**
     file_copy: bytes move exactly when the key is accepted, the source's time can be read and the
     target reads as absent or older, and the copy does not raise. They are then the source's, and
     nothing is left to copy; in every other case both containers stay as they were. Azure's copy
     is taken as landed.
     */
    method FileCopy(key: string) returns (o: Outcome)
      modifies this`world
      ensures o == CopyOutcome(env, old(world), key)
      ensures world == AfterCopy(env, old(world), key)
      ensures o == Copied <==> MustMove(env, old(world), key)
      ensures o == Raised <==> MustRaise(env, old(world), key)
      ensures o == UpToDate <==> IsCurrent(env, old(world), key)
      ensures o == Unsupported <==> env.validKey(key) && env.provider == Other
      ensures o == Copied ==> key in world.target && world.target[key].modified == Some(world.clock)
      ensures o == Copied ==> world.clock > old(world).clock
      ensures o == Copied && old(world).source[key].modified.value <= old(world).clock ==> Settled(world, key)
      ensures o != Copied ==> world == old(world)
      ensures forall k :: k != key ==> SameFor(world, old(world), k)
    {
      if !env.validKey(key) {
        return Raised;
      }
      if env.provider == Other {
        return Unsupported;
      }
      var source := ReadHead(env.provider, Modified(world.source, key), env.fault(key).sourceHead);
      if source.HeadRaised? {
        return Raised;
      }
      if source.Absent? {
        return SourceMissing;
      }
      var target := ReadHead(env.provider, Modified(world.target, key), env.fault(key).targetHead);
      if target.HeadRaised? {
        return Raised;
      }
      if target.At? && source.time <= target.time {
        return UpToDate;
      }
      if env.fault(key).copy {
        return Raised;
      }
      var stamp := world.clock + 1;
      world := world.(target := world.target[key := Obj(world.source[key].data, Some(stamp))], clock := stamp);
      o := Copied;
    }

    /** move_files and send_to_kafka: the path published is the remembered file name. */
    method MoveAndPublish(key: string) returns (failed: bool, copied: bool)
      modifies this
      ensures (world, Tally(if copied then 1 else 0, if failed || copied then 0 else 1, if failed then 1 else 0))
           == ProcessFile(env, old(world), Tally(0, 0, 0), key)
      ensures copied <==> MustMove(env, old(world), key) && !env.fault(key).send
      ensures failed <==> MustRaise(env, old(world), key) || (MustMove(env, old(world), key) && env.fault(key).send)
      ensures world.sent == old(world).sent + if copied then [key] else []
    {
      fileName := key;
      var o := FileCopy(key);
      failed, copied := o == Raised, false;
      if o == Copied {
        if env.fault(fileName).send {
          failed := true;
        } else {
          world := world.(sent := world.sent + [fileName]);
          copied := true;
        }
      }
    }

    method RunFiles(files: seq<string>, alreadySkipped: nat) returns (t: Tally)
      modifies this
      ensures (world, t) == ProcessAll(env, old(world), Tally(0, alreadySkipped, 0), files)
    {
      t := Tally(0, alreadySkipped, 0);
      for i := 0 to |files|
        invariant ProcessAll(env, world, t, files[i..])
               == ProcessAll(env, old(world), Tally(0, alreadySkipped, 0), files)
      {
        ghost var before := world;
        assert files[i..][0] == files[i] && files[i..][1..] == files[i + 1..];
        var failed, copied := MoveAndPublish(files[i]);
        ProcessShiftsTally(env, before, Tally(0, 0, 0), t, files[i]);
        if failed {
          t := t.(failed := t.failed + 1);
        } else if copied {
          t := t.(copied := t.copied + 1);
        } else {
          t := t.(skipped := t.skipped + 1);
        }
      }
    }

    method RunAdaptor(files: seq<string>) returns (t: Tally)
      modifies this
      ensures (world, t) == SlowCycle(env, old(world), files)
    {
      t := RunFiles(files, 0);
    }

    method RunExtractor(files: seq<string>) returns (t: Tally)
      modifies this
      ensures (world, t) == FastCycle(env, old(world), files)
    {
      var pending: seq<string> := [];
      for i := 0 to |files|
        invariant pending == Select(files[..i], Pending(world)) && world == old(world)
      {
        assert files[..i + 1] == files[..i] + [files[i]];
        SelectAppend(files[..i], files[i], Pending(world));
        if NeedsCopy(world, files[i]) {
          pending := pending + [files[i]];
        }
      }
      assert files[..|files|] == files;
      t := RunFiles(pending, |files| - |pending|);
    }
  }

  lemma ProcessShiftsTally(env: Env, w: World, t: Tally, u: Tally, key: string)
    ensures var (w1, t1), (w2, t2) := ProcessFile(env, w, t, key), ProcessFile(env, w, u, key);
      && w1 == w2
      && t2 == Tally(
        u.copied + t1.copied - t.copied, u.skipped + t1.skipped - t.skipped, u.failed + t1.failed - t.failed)
  {
  }

  // ---- What one file does depends only on that file ----

  /** The two worlds agree on everything key's processing reads. */
  ghost predicate SameFor(w: World, v: World, key: string) {
    && w.source == v.source
    && Modified(w.target, key) == Modified(v.target, key)
  }

  lemma OutcomeLocal(env: Env, w: World, v: World, key: string)
    requires SameFor(w, v, key)
    ensures CopyOutcome(env, w, key) == CopyOutcome(env, v, key)
  {
  }

  lemma OthersUntouched(env: Env, w: World, t: Tally, key: string, other: string)
    requires key != other
    ensures SameFor(ProcessFile(env, w, t, key).0, w, other)
  {
  }

  ghost predicate SameForAll(w: World, v: World, keys: seq<string>) {
    forall k :: k in keys ==> SameFor(w, v, k)
  }

  lemma NextSameForAll(env: Env, w: World, t: Tally, v: World, keys: seq<string>)
    requires keys != [] && NoDup(keys) && SameForAll(w, v, keys)
    ensures NoDup(keys[1..]) && SameForAll(ProcessFile(env, w, t, keys[0]).0, v, keys[1..])
  {
    forall k | k in keys[1..] ensures SameFor(ProcessFile(env, w, t, keys[0]).0, v, k) {
      OthersUntouched(env, w, t, keys[0], k);
      assert k in keys;
    }
  }

  // ---- What a cycle publishes and counts ----

  function Publishes(env: Env, w: World): string -> bool {
    (key: string) => MustMove(env, w, key) && !env.fault(key).send
  }

  function Fails(env: Env, w: World): string -> bool {
    (key: string) => MustRaise(env, w, key) || (MustMove(env, w, key) && env.fault(key).send)
  }

  /** Both listings together do not show the target as no older than the source. */
  predicate Outdated(w: World, key: string) {
    match Modified(w.source, key)
    case None => true
    case Some(s) => !(Modified(w.target, key).Some? && Modified(w.target, key).value >= s)
  }

  function Flagged(w: World): string -> bool {
    (key: string) => Outdated(w, key)
  }

  /** What one file adds to the published paths and to the counts. */
  lemma OneFileAdds(env: Env, w: World, v: World, t: Tally, key: string)
    requires SameFor(w, v, key)
    ensures var (w', t') := ProcessFile(env, w, t, key);
      && w'.sent == w.sent + (if Publishes(env, v)(key) then [key] else [])
      && t'.copied == t.copied + (if Publishes(env, v)(key) then 1 else 0)
      && t'.failed == t.failed + (if Fails(env, v)(key) then 1 else 0)
  {
    OutcomeLocal(env, w, v, key);
  }

  lemma {:induction false} FilesAdd(env: Env, w: World, v: World, t: Tally, keys: seq<string>)
    requires NoDup(keys) && SameForAll(w, v, keys)
    ensures var (w', t') := ProcessAll(env, w, t, keys);
      && w'.sent == w.sent + Select(keys, Publishes(env, v))
      && t'.copied == t.copied + |Select(keys, Publishes(env, v))|
      && t'.failed == t.failed + |Select(keys, Fails(env, v))|
    decreases |keys|
  {
    if keys != [] {
      assert keys[0] in keys;
      var (w', t') := ProcessFile(env, w, t, keys[0]);
      OneFileAdds(env, w, v, t, keys[0]);
      NextSameForAll(env, w, t, v, keys);
      FilesAdd(env, w', v, t', keys[1..]);
      var first := if Publishes(env, v)(keys[0]) then [keys[0]] else [];
      ConcatAssociates(w.sent, first, Select(keys[1..], Publishes(env, v)));
    }
  }

  /**
   The producer's cycle publishes, once each and in listing order, exactly the files whose copy goes
   through and whose send does not raise; it counts those as copied and as failed exactly the others
   that raised somewhere.
   */
  lemma SlowCycleSends(env: Env, w: World, files: seq<string>)
    requires NoDup(files)
    ensures var (v, t) := SlowCycle(env, w, files);
      && v.sent == w.sent + Select(files, Publishes(env, w))
      && t.copied == |Select(files, Publishes(env, w))| && t.failed == |Select(files, Fails(env, w))|
  {
    FilesAdd(env, w, w, Tally(0, 0, 0), files);
  }

  /** The consumer's cycle does the same over the files its two listings flag, in listing order. */
  lemma FastCycleSends(env: Env, w: World, files: seq<string>)
    requires NoDup(files)
    ensures var (v, t) := FastCycle(env, w, files);
      var flagged := Select(files, Flagged(w));
      && v.sent == w.sent + Select(flagged, Publishes(env, w))
      && t.copied == |Select(flagged, Publishes(env, w))| && t.failed == |Select(flagged, Fails(env, w))|
  {
    var pending := Select(files, Pending(w));
    SameSelection(files, Pending(w), Flagged(w));
    SelectNoDup(files, Pending(w));
    FilesAdd(env, w, w, Cleared(files, pending), pending);
  }

  // ---- When the fast cycle equals the slow one ----

  /**
   The condition, readable from a file's name and its fault script: the key is
   accepted and the gate's own timestamp reads would not mislead file_copy. On
   Azure a failed source read still counts as a skip; a failed target read does not.
   */
  predicate Undisturbed(env: Env, key: string) {
    var f := env.fault(key);
    && env.validKey(key)
    && if env.provider == Azure then f.sourceHead || !f.targetHead else !f.sourceHead && !f.targetHead
  }

  lemma SkippedExactlyWhenUndisturbed(env: Env, w: World, key: string)
    requires env.provider != Other && !NeedsCopy(w, key)
    ensures Undisturbed(env, key) <==> CopyOutcome(env, w, key) in {UpToDate, SourceMissing, Unsupported}
  {
  }

  predicate Calm(env: Env, w: World, keys: seq<string>) {
    forall k :: k in keys && !NeedsCopy(w, k) ==> Undisturbed(env, k)
  }

  function MoreSkipped(t: Tally, n: nat): Tally {
    t.(skipped := t.skipped + n)
  }

  lemma ClearedFileOnlyCounts(env: Env, w: World, v: World, t: Tally, key: string)
    requires env.provider != Other && SameFor(w, v, key) && !NeedsCopy(v, key) && Undisturbed(env, key)
    ensures ProcessFile(env, w, t, key) == (w, MoreSkipped(t, 1))
  {
    OutcomeLocal(env, w, v, key);
    SkippedExactlyWhenUndisturbed(env, v, key);
  }

  lemma SkipsCommute(env: Env, w: World, t: Tally, n: nat, key: string)
    ensures ProcessFile(env, w, MoreSkipped(t, n), key)
         == (ProcessFile(env, w, t, key).0, MoreSkipped(ProcessFile(env, w, t, key).1, n))
  {
  }

  /** Skipping the n files the pre-filter clears changes nothing but who counted them. */
  lemma {:induction false} CalmCyclesAgree(
    env: Env, w: World, v: World, t: Tally, keys: seq<string>, pending: seq<string>, n: nat)
    requires env.provider != Other && NoDup(keys) && SameForAll(w, v, keys) && Calm(env, v, keys)
    requires pending == Select(keys, Pending(v)) && n == |keys| - |pending|
    ensures ProcessAll(env, w, t, keys) == ProcessAll(env, w, MoreSkipped(t, n), pending)
    decreases |keys|
  {
    if keys != [] {
      var k := keys[0];
      assert k in keys;
      var (w', t') := ProcessFile(env, w, t, k);
      NextSameForAll(env, w, t, v, keys);
      if NeedsCopy(v, k) {
        assert pending == [k] + Select(keys[1..], Pending(v));
        CalmCyclesAgree(env, w', v, t', keys[1..], pending[1..], n);
        ProcessFirst(env, w, t, n, k, pending[1..]);
      } else {
        assert pending == Select(keys[1..], Pending(v));
        ClearedFileOnlyCounts(env, w, v, t, k);
        CalmCyclesAgree(env, w, v, t', keys[1..], pending, n - 1);
        assert MoreSkipped(t', n - 1) == MoreSkipped(t, n);
      }
    }
  }

  lemma {:induction false} ProcessFirst(env: Env, w: World, t: Tally, n: nat, k: string, rest: seq<string>)
    ensures var (w', t') := ProcessFile(env, w, t, k);
      ProcessAll(env, w, MoreSkipped(t, n), [k] + rest) == ProcessAll(env, w', MoreSkipped(t', n), rest)
  {
    SkipsCommute(env, w, t, n, k);
    assert ([k] + rest)[1..] == rest;
  }

  function Skips(env: Env, w: World): string -> bool {
    (key: string) => CopyOutcome(env, w, key) in {UpToDate, SourceMissing, Unsupported}
  }

  lemma {:induction false} SkippedCount(env: Env, w: World, v: World, t: Tally, keys: seq<string>)
    requires NoDup(keys) && SameForAll(w, v, keys)
    ensures ProcessAll(env, w, t, keys).1.skipped == t.skipped + |Select(keys, Skips(env, v))|
    decreases |keys|
  {
    if keys != [] {
      assert keys[0] in keys;
      var (w', t') := ProcessFile(env, w, t, keys[0]);
      OutcomeLocal(env, w, v, keys[0]);
      NextSameForAll(env, w, t, v, keys);
      SkippedCount(env, w', v, t', keys[1..]);
    }
  }

  lemma {:induction false} DisturbedCountsFewer(env: Env, v: World, keys: seq<string>)
    requires env.provider != Other
    ensures |Select(keys, Skips(env, v))|
      <= |keys| - |Select(keys, Pending(v))| + |Select(Select(keys, Pending(v)), Skips(env, v))|
    ensures !Calm(env, v, keys) ==>
      |Select(keys, Skips(env, v))|
      < |keys| - |Select(keys, Pending(v))| + |Select(Select(keys, Pending(v)), Skips(env, v))|
  {
    if keys != [] {
      var k, rest := keys[0], Select(keys[1..], Pending(v));
      assert keys == [k] + keys[1..];
      DisturbedCountsFewer(env, v, keys[1..]);
      if NeedsCopy(v, k) {
        SelectFront(k, rest, Skips(env, v));
      } else {
        assert Select(keys, Pending(v)) == rest;
        SkippedExactlyWhenUndisturbed(env, v, k);
      }
    }
  }

  lemma {:induction false} SelectNoDup(xs: seq<string>, p: string -> bool)
    requires NoDup(xs)
    ensures NoDup(Select(xs, p))
  {
    if xs != [] {
      SelectNoDup(xs[1..], p);
      SelectMembers(xs[1..], p);
      assert forall x :: x in xs[1..] ==> x != xs[0];
      assert forall i :: 0 <= i < |Select(xs[1..], p)| ==> Select(xs[1..], p)[i] in Select(xs[1..], p);
    }
  }

  /**
   The fast cycle gives the slow cycle's bytes, times, notifications and counts
   if and only if no up-to-date file has a rejected key or a disturbed gate.
   */
  lemma FastEqualsSlow(env: Env, w: World, files: seq<string>)
    requires IsListing(env, w, files)
    ensures FastCycle(env, w, files) == SlowCycle(env, w, files) <==> Calm(env, w, files)
  {
    if env.provider != Other {
      var pending := Select(files, Pending(w));
      if Calm(env, w, files) {
        CalmCyclesAgree(env, w, w, Tally(0, 0, 0), files, pending, |files| - |pending|);
      } else {
        SelectNoDup(files, Pending(w));
        SkippedCount(env, w, w, Tally(0, 0, 0), files);
        SkippedCount(env, w, w, Cleared(files, pending), pending);
        DisturbedCountsFewer(env, w, files);
      }
    }
  }

  /** Every discovered file is counted exactly once. */
  lemma {:induction false} TallyConserved(env: Env, w: World, t: Tally, keys: seq<string>)
    ensures var t' := ProcessAll(env, w, t, keys).1;
      t'.copied + t'.skipped + t'.failed == t.copied + t.skipped + t.failed + |keys|
    decreases |keys|
  {
    if keys != [] {
      var (w', t') := ProcessFile(env, w, t, keys[0]);
      TallyConserved(env, w', t', keys[1..]);
    }
  }

  lemma CountsSumToDiscovered(env: Env, w: World, files: seq<string>)
    ensures var t := FastCycle(env, w, files).1; t.copied + t.skipped + t.failed == |files|
    ensures var t := SlowCycle(env, w, files).1; t.copied + t.skipped + t.failed == |files|
  {
    var pending := Select(files, Pending(w));
    TallyConserved(env, w, Tally(0, 0, 0), files);
    TallyConserved(env, w, Cleared(files, pending), pending);
  }

  // ---- A clean cycle settles ----

  /** The gate is sound: a target at least as new as its source has the source's bytes. */
  predicate GateSound(source: map<string, Obj>, target: map<string, Obj>, key: string) {
    (key in source && key in target && source[key].modified.Some? && target[key].modified.Some?
     && source[key].modified.value <= target[key].modified.value)
    ==> source[key].data == target[key].data
  }

  ghost predicate Settled(w: World, key: string) {
    && key in w.source && key in w.target && w.source[key].data == w.target[key].data
    && !NeedsCopy(w, key)
  }

  ghost predicate CleanRun(env: Env, w: World, files: seq<string>) {
    && env.provider != Other && IsListing(env, w, files)
    && (forall k :: k in files ==> env.validKey(k) && env.fault(k) == Fault(false, false, false, false))
    && (forall k :: k in w.source ==> w.source[k].modified.Some? && w.source[k].modified.value <= w.clock)
  }

  lemma {:induction false} ProcessSettles(env: Env, w: World, v: World, t: Tally, keys: seq<string>)
    requires env.provider != Other && NoDup(keys) && SameForAll(w, v, keys) && w.source == v.source
    requires forall k :: k in keys ==>
      k in w.source && w.source[k].modified.Some? && w.source[k].modified.value <= w.clock
    requires forall k :: k in keys ==> env.validKey(k) && env.fault(k) == Fault(false, false, false, false)
    requires forall k :: k in keys ==> GateSound(w.source, w.target, k)
    ensures var w' := ProcessAll(env, w, t, keys).0;
      && w'.source == w.source && w'.clock >= w.clock
      && (forall k :: k in keys ==> Settled(w', k))
      && (forall k :: k !in keys && k in w.target ==> k in w'.target && w'.target[k] == w.target[k])
    decreases |keys|
  {
    if keys != [] {
      var k := keys[0];
      assert k in keys;
      var (w', t') := ProcessFile(env, w, t, k);
      NextSameForAll(env, w, t, v, keys);
      assert forall j :: j in keys[1..] ==> j in keys && j != k;
      ProcessSettles(env, w', v, t', keys[1..]);
      assert Settled(w', k);
      assert k !in keys[1..];
    }
  }

  /**
   After a clean cycle whose copies have landed, from a sound state, every source file is in the target,
   byte for byte.
   */
  lemma CleanCycleAgrees(env: Env, w: World, files: seq<string>)
    requires CleanRun(env, w, files)
    requires forall k :: GateSound(w.source, w.target, k)
    ensures var w' := FastCycle(env, w, files).0;
      w'.source == w.source && forall k :: k in w.source ==> Settled(w', k)
  {
    FastEqualsSlow(env, w, files);
    ProcessSettles(env, w, w, Tally(0, 0, 0), files);
  }

  /** The cycle after a clean one whose copies have landed finds nothing pending: it copies and publishes nothing. */
  lemma NextCycleIsIdle(env: Env, w: World, files: seq<string>, next: seq<string>)
    requires CleanRun(env, w, files)
    requires forall k :: GateSound(w.source, w.target, k)
    requires IsListing(env, FastCycle(env, w, files).0, next)
    ensures var w' := FastCycle(env, w, files).0;
      FastCycle(env, w', next) == (w', Tally(0, |next|, 0))
  {
    CleanCycleAgrees(env, w, files);
    var w' := FastCycle(env, w, files).0;
    SelectNone(next, Pending(w'));
  }

  // ---- A notification that failed ----

  /** One later cycle, of either program, with its own faults. */
  datatype Cycle = Cycle(env: Env, files: seq<string>, fast: bool)

  function RunCycle(w: World, c: Cycle): World {
    if c.fast then FastCycle(c.env, w, c.files).0 else SlowCycle(c.env, w, c.files).0
  }

  function RunCycles(w: World, cycles: seq<Cycle>): World {
    if cycles == [] then w else RunCycle(RunCycles(w, cycles[..|cycles| - 1]), cycles[|cycles| - 1])
  }

  /**
   How a settled file can still be notified: a file-by-file cycle on Azure whose failed read
   of the target's time counts as an absent target, so that the file is copied once more.
   */
  predicate Renotifies(c: Cycle, key: string) {
    var f := c.env.fault(key);
    && !c.fast && key in c.files && c.env.provider == Azure && c.env.validKey(key)
    && !f.sourceHead && f.targetHead && !f.copy && !f.send
  }

  ghost predicate Resting(w: World, key: string) {
    Settled(w, key) && w.source[key].modified.value <= w.clock
  }

  lemma OneFileNotifies(env: Env, w: World, t: Tally, k: string, key: string)
    requires Resting(w, key) && key !in w.sent
    ensures var v := ProcessFile(env, w, t, k).0;
      && v.source == w.source && Resting(v, key)
      && (key in v.sent <==> k == key && Renotifies(Cycle(env, [k], false), key))
  {
    assert key in [k] <==> key == k;
  }

  lemma OneFileStillNotified(env: Env, w: World, t: Tally, k: string, key: string)
    requires Resting(w, key) && key in w.sent
    ensures var v := ProcessFile(env, w, t, k).0; v.source == w.source && Resting(v, key) && key in v.sent
  {
  }

  lemma {:induction false} FilesNotify(env: Env, w: World, t: Tally, keys: seq<string>, key: string)
    requires Resting(w, key)
    ensures var v := ProcessAll(env, w, t, keys).0;
      && v.source == w.source && Resting(v, key)
      && (key in v.sent <==> key in w.sent || Renotifies(Cycle(env, keys, false), key))
    decreases |keys|
  {
    if keys != [] {
      var (v, u) := ProcessFile(env, w, t, keys[0]);
      assert keys == [keys[0]] + keys[1..];
      if key in w.sent {
        OneFileStillNotified(env, w, t, keys[0], key);
      } else {
        OneFileNotifies(env, w, t, keys[0], key);
      }
      FilesNotify(env, v, u, keys[1..], key);
    }
  }

  lemma CycleNotifies(w: World, c: Cycle, key: string)
    requires Resting(w, key)
    ensures var v := RunCycle(w, c);
      Resting(v, key) && (key in v.sent <==> key in w.sent || Renotifies(c, key))
  {
    if c.fast {
      FastNotifiesNone(c.env, w, c.files, key);
    } else {
      FilesNotify(c.env, w, Tally(0, 0, 0), c.files, key);
    }
  }

  lemma {:induction false} FastNotifiesNone(env: Env, w: World, files: seq<string>, key: string)
    requires Resting(w, key)
    ensures var v := FastCycle(env, w, files).0; Resting(v, key) && (key in v.sent <==> key in w.sent)
  {
    var pending := Select(files, Pending(w));
    SelectMembers(files, Pending(w));
    FilesNotify(env, w, Cleared(files, pending), pending, key);
  }

  /**
   Over any later cycles on an unchanged source, a settled file is notified if and only if some cycle
   meets the condition.
   */
  lemma {:induction false} SettledFileNotifiedExactly(w: World, cycles: seq<Cycle>, key: string)
    requires Resting(w, key)
    ensures var v := RunCycles(w, cycles);
      && Resting(v, key)
      && (key in v.sent <==> key in w.sent || exists i :: 0 <= i < |cycles| && Renotifies(cycles[i], key))
  {
    if cycles != [] {
      var n := |cycles| - 1;
      SettledFileNotifiedExactly(w, cycles[..n], key);
      CycleNotifies(RunCycles(w, cycles[..n]), cycles[n], key);
      AnyOrLast(cycles, key);
    }
  }

  lemma AnyOrLast(cycles: seq<Cycle>, key: string)
    requires cycles != []
    ensures var n := |cycles| - 1;
      (exists i :: 0 <= i < |cycles| && Renotifies(cycles[i], key))
      <==> (exists i :: 0 <= i < n && Renotifies(cycles[..n][i], key)) || Renotifies(cycles[n], key)
  {
    var n := |cycles| - 1;
    if i :| 0 <= i < |cycles| && Renotifies(cycles[i], key) {
      assert i < n ==> Renotifies(cycles[..n][i], key);
    }
    if i :| 0 <= i < n && Renotifies(cycles[..n][i], key) {
      assert Renotifies(cycles[i], key);
    }
  }

  /**
   A send that raises after a copy that landed: later cycles notify the file if and only if one of them
   is a file-by-file cycle on Azure that cannot read the target's time. Fast cycles never do.
   */
  lemma FailedSendNotifiedExactly(env: Env, w: World, t: Tally, key: string, cycles: seq<Cycle>)
    requires CopyOutcome(env, w, key) == Copied && env.fault(key).send && key !in w.sent
    requires w.source[key].modified.Some? && w.source[key].modified.value <= w.clock
    ensures key in RunCycles(ProcessFile(env, w, t, key).0, cycles).sent <==>
      exists i :: 0 <= i < |cycles| && Renotifies(cycles[i], key)
  {
    SettledFileNotifiedExactly(ProcessFile(env, w, t, key).0, cycles, key);
  }
}
