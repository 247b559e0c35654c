/**
 Drain-until-idle forwarding (utils/topic_forwarder.py, _run_drain and
 _forward_one). Each message is put on the producer's queue and then committed;
 any call may raise, which ends the drain. The queue holds source offsets, so
 "what was forwarded" is a sequence of numbers.
 */
module TopicDrain {
  import opened Seqs

  /**
   What became of a commit once the message was queued: done; lost, because it or a step before it raised;
   raised although the broker recorded it.
   */
  datatype CommitFate = CommitDone | CommitLost | CommitKept

  /** One poll, with the clock reading after it (for a message, after its commit). */
  datatype Poll =
    | Quiet(now: int)
    | EndOfPartition
    | Broken
    | Message(now: int, produceRaises: bool, commit: CommitFate)

  datatype Ending = StillPolling | IdleExit | PollRaised | ProduceRaised | CommitRaised

  datatype Drained = Drained(committed: nat, queued: seq<nat>, forwarded: nat, lost: nat, ending: Ending)

  /** The offsets from..from+n. */
  function Run(from: nat, n: nat): seq<nat> {
    seq(n, i => from + i)
  }

  /** The rest of a drain, seen together with what was forwarded before it. */
  function After(sent: seq<nat>, forwarded: nat, rest: Drained): Drained {
    rest.(queued := sent + rest.queued, forwarded := forwarded + rest.forwarded)
  }

  /** One drain of a consumer whose group stands at `committed`. */
  function Drain(committed: nat, polls: seq<Poll>, lastMessage: int, idle: int): Drained
    decreases |polls|
  {
    if polls == [] then Drained(committed, [], 0, 0, StillPolling)
    else match polls[0]
      case Quiet(now) =>
        if now - lastMessage >= idle then Drained(committed, [], 0, 0, IdleExit)
        else Drain(committed, polls[1..], lastMessage, idle)
      case EndOfPartition => Drain(committed, polls[1..], lastMessage, idle)
      case Broken => Drained(committed, [], 0, 0, PollRaised)
      case Message(now, produceRaises, commit) =>
        if produceRaises then Drained(committed, [], 0, 0, ProduceRaised)
        else match commit
          case CommitLost => Drained(committed, [committed], 0, 1, CommitRaised)
          case CommitKept => Drained(committed + 1, [committed], 0, 0, CommitRaised)
          case CommitDone =>
            After([committed], 1, Drain(committed + 1, polls[1..], now, idle))
  }

  lemma OneForwarded(sent: seq<nat>, forwarded: nat, o: nat, rest: Drained)
    ensures After(sent, forwarded, After([o], 1, rest)) == After(sent + [o], forwarded + 1, rest)
  {
    ConcatAssociates(sent, [o], rest.queued);
  }

  class Forwarder {
    const idle: int
    /** The broker's committed offset of the consumer group. */
    var committed: nat
    /** Source offsets in the order they were handed to the producer. */
    var queue: seq<nat>

    constructor (idle: int, committed: nat)
      ensures this.idle == idle && this.committed == committed && queue == []
    {
      this.idle, this.committed, queue := idle, committed, [];
    }

    method RunDrain(polls: seq<Poll>, start: int) returns (forwarded: nat, ending: Ending)
      modifies this
      ensures var d := Drain(old(committed), polls, start, idle);
        && committed == d.committed && queue == old(queue) + d.queued
        && forwarded == d.forwarded && ending == d.ending
    {
      forwarded, ending := 0, StillPolling;
      var position, lastMessage, i := committed, start, 0;
      while i < |polls|
        invariant i <= |polls| && position == committed && ending == StillPolling
        invariant After(old(queue), 0, Drain(old(committed), polls, start, idle))
               == After(queue, forwarded, Drain(committed, polls[i..], lastMessage, idle))
      {
        assert polls[i..][0] == polls[i] && polls[i..][1..] == polls[i + 1..];
        match polls[i] {
          case Quiet(now) =>
            if now - lastMessage >= idle {
              ending := IdleExit;
              return;
            }
          case EndOfPartition =>
          case Broken =>
            ending := PollRaised;
            return;
          case Message(now, produceRaises, commit) =>
            if produceRaises {
              ending := ProduceRaised;
              return;
            }
            ghost var before := queue;
            queue := queue + [position];
            if commit != CommitLost {
              committed := position + 1;
            }
            if commit != CommitDone {
              ending := CommitRaised;
              return;
            }
            OneForwarded(before, forwarded, position, Drain(committed, polls[i + 1..], now, idle));
            position := position + 1;
            forwarded := forwarded + 1;
            lastMessage := now;
        }
        i := i + 1;
      }
    }
  }

  /** A drain that ends without an exception queued exactly the run of offsets it committed. */
  lemma {:induction false} CleanDrainIsContiguous(committed: nat, polls: seq<Poll>, lastMessage: int, idle: int)
    ensures var d := Drain(committed, polls, lastMessage, idle);
      && d.queued == Run(committed, |d.queued|)
      && d.committed >= committed && d.lost <= 1 && (d.lost == 1 ==> d.ending == CommitRaised)
      && d.committed + d.lost == committed + |d.queued|
      && (d.ending in {StillPolling, IdleExit, PollRaised, ProduceRaised} ==>
            d.forwarded == |d.queued| && d.committed == committed + d.forwarded && d.lost == 0)
    decreases |polls|
  {
    if polls != [] {
      var p := polls[0];
      if p.Message? {
        CleanDrainIsContiguous(committed + 1, polls[1..], p.now, idle);
        var rest := Drain(committed + 1, polls[1..], p.now, idle).queued;
        assert [committed] + rest == Run(committed, 1 + |rest|);
      } else {
        CleanDrainIsContiguous(committed, polls[1..], lastMessage, idle);
      }
    }
  }

  /** When the last message among these polls was forwarded, or the time the drain began. */
  function LastForward(polls: seq<Poll>, start: int): int
    decreases |polls|
  {
    if polls == [] then start else LastForward(polls[1..], if polls[0].Message? then polls[0].now else start)
  }

  /**
   An idle exit happens at a poll k that brought nothing: until then the drain was still polling,
   so every message before k was forwarded, the last of them at least `idle` ago; nothing after k is read.
   */
  lemma {:induction false} IdleExitWaited(committed: nat, polls: seq<Poll>, start: int, idle: int) returns (k: nat)
    requires Drain(committed, polls, start, idle).ending == IdleExit
    ensures k < |polls| && polls[k].Quiet? && polls[k].now - LastForward(polls[..k], start) >= idle
    ensures Drain(committed, polls[..k], start, idle).ending == StillPolling
    ensures Drain(committed, polls[..k + 1], start, idle) == Drain(committed, polls, start, idle)
    decreases |polls|
  {
    var p := polls[0];
    if p.Quiet? && p.now - start >= idle {
      k := 0;
      assert polls[..0] == [];
    } else {
      var from, last := if p.Message? then committed + 1 else committed, if p.Message? then p.now else start;
      var j := IdleExitWaited(from, polls[1..], last, idle);
      k := j + 1;
      assert polls[..k][1..] == polls[1..][..j] && polls[..k + 1][1..] == polls[1..][..j + 1];
      assert polls[..k][0] == p && polls[..k + 1][0] == p;
    }
  }

  /** Poll k is the kind that ends a drain: quiet for the idle time, an error, or a message that does not go through. */
  predicate Ends(polls: seq<Poll>, k: nat, start: int, idle: int)
    requires k < |polls|
  {
    match polls[k]
    case Quiet(now) => now - LastForward(polls[..k], start) >= idle
    case EndOfPartition => false
    case Broken => true
    case Message(_, produceRaises, commit) => produceRaises || commit != CommitDone
  }

  function Messages(polls: seq<Poll>): nat {
    if polls == [] then 0 else (if polls[0].Message? then 1 else 0) + Messages(polls[1..])
  }

  /** A drain of these polls that read k messages before the poll that ended it, or all of them. */
  ghost predicate EndsAt(d: Drained, committed: nat, polls: seq<Poll>, k: nat)
    requires k <= |polls|
  {
    var n := Messages(polls[..k]);
    && d.forwarded == n
    && if k < |polls| && polls[k].Message? && !polls[k].produceRaises then
         && d.ending == CommitRaised && d.queued == Run(committed, n + 1)
         && d.lost == (if polls[k].commit == CommitKept then 0 else 1)
         && d.committed == committed + n + (if polls[k].commit == CommitKept then 1 else 0)
       else
         && d.queued == Run(committed, n) && d.committed == committed + n && d.lost == 0
         && d.ending == if k == |polls| then StillPolling
                        else match polls[k]
                          case Quiet(_) => IdleExit
                          case Broken => PollRaised
                          case EndOfPartition => StillPolling
                          case Message(_, _, _) => ProduceRaised
  }

  lemma RunFront(from: nat, n: nat)
    ensures [from] + Run(from + 1, n) == Run(from, n + 1)
  {
  }

  lemma {:induction false} LaterEnds(polls: seq<Poll>, k: nat, start: int, idle: int)
    requires k + 1 < |polls|
    ensures Ends(polls, k + 1, start, idle)
        <==> Ends(polls[1..], k, if polls[0].Message? then polls[0].now else start, idle)
  {
    assert polls[..k + 1][1..] == polls[1..][..k] && polls[..k + 1][0] == polls[0];
  }

  /**
   Every drain ends exactly at the first poll that is of the ending kind, with what that poll says;
   everything before it was forwarded and committed.
   */
  lemma {:induction false} DrainEndsExactly(committed: nat, polls: seq<Poll>, start: int, idle: int) returns (k: nat)
    ensures k <= |polls| && EndsAt(Drain(committed, polls, start, idle), committed, polls, k)
    ensures (k < |polls| ==> Ends(polls, k, start, idle)) && forall j :: 0 <= j < k ==> !Ends(polls, j, start, idle)
    decreases |polls|
  {
    if polls == [] || Ends(polls, 0, start, idle) {
      k := 0;
      assert polls[..0] == [];
    } else {
      var p := polls[0];
      var from, last := if p.Message? then committed + 1 else committed, if p.Message? then p.now else start;
      assert polls[..0] == [];
      var j := DrainEndsExactly(from, polls[1..], last, idle);
      k := j + 1;
      assert polls[..k][1..] == polls[1..][..j] && polls[..k][0] == p;
      if k < |polls| {
        LaterEnds(polls, j, start, idle);
      }
      forall i | 0 <= i < k ensures !Ends(polls, i, start, idle) {
        if i > 0 {
          LaterEnds(polls, i - 1, start, idle);
        }
      }
      RunFront(committed, Messages(polls[1..][..j]));
      RunFront(committed, Messages(polls[1..][..j]) + 1);
    }
  }

  // ---- Many drains ----

  datatype Session = Session(start: int, polls: seq<Poll>)

  datatype History = History(committed: nat, queue: seq<nat>, lost: nat)

  function DrainAll(base: nat, sessions: seq<Session>, idle: int): History {
    if sessions == [] then History(base, [], 0)
    else
      var h, s := DrainAll(base, sessions[..|sessions| - 1], idle), sessions[|sessions| - 1];
      var d := Drain(h.committed, s.polls, s.start, idle);
      History(d.committed, h.queue + d.queued, h.lost + d.lost)
  }

  /** In order, never skipping: each entry repeats the one before or is the next offset. */
  ghost predicate InOrder(base: nat, queue: seq<nat>) {
    && (queue != [] ==> queue[0] == base)
    && forall i :: 0 < i < |queue| ==> queue[i] == queue[i - 1] || queue[i] == queue[i - 1] + 1
  }

  lemma {:induction false} OrderCovers(base: nat, queue: seq<nat>, o: nat)
    requires InOrder(base, queue) && queue != [] && base <= o <= queue[|queue| - 1]
    ensures o in queue
  {
    if o < queue[|queue| - 1] {
      var front := queue[..|queue| - 1];
      assert front != [] && queue[|queue| - 2] == front[|front| - 1];
      OrderCovers(base, front, o);
    }
  }

  /** Where the queue's end stands relative to the committed offset. */
  ghost predicate Aligned(base: nat, h: History) {
    && base <= h.committed
    && if h.queue == [] then h.committed == base
       else var last := h.queue[|h.queue| - 1];
            last + 1 == h.committed || (last == h.committed && h.lost > 0)
  }

  lemma AlignedCovers(base: nat, h: History)
    requires InOrder(base, h.queue) && Aligned(base, h)
    ensures forall o :: base <= o < h.committed ==> o in h.queue
  {
    forall o | base <= o < h.committed ensures o in h.queue {
      OrderCovers(base, h.queue, o);
    }
  }

  lemma AppendRun(base: nat, h: History, n: nat, lost: nat)
    requires InOrder(base, h.queue) && Aligned(base, h) && lost <= 1 && lost <= n
    ensures var h' := History(h.committed + n - lost, h.queue + Run(h.committed, n), h.lost + lost);
      InOrder(base, h'.queue) && Aligned(base, h')
  {
    var q := h.queue + Run(h.committed, n);
    forall i | 0 < i < |q| ensures q[i] == q[i - 1] || q[i] == q[i - 1] + 1 {
      if i < |h.queue| {
        assert q[i] == h.queue[i] && q[i - 1] == h.queue[i - 1];
      } else if i == |h.queue| {
        assert q[i] == h.committed && q[i - 1] == h.queue[i - 1];
      }
    }
  }

  /**
   Over any drains, each ended by idleness or an exception anywhere: every offset
   below the committed one was queued, in order and without a gap; and the queue is
   longer than the committed range by exactly the number of commits that were lost.
   */
  lemma {:induction false} DrainsLeaveNoGap(base: nat, sessions: seq<Session>, idle: int)
    ensures var h := DrainAll(base, sessions, idle);
      && InOrder(base, h.queue) && Aligned(base, h)
      && (forall o :: base <= o < h.committed ==> o in h.queue)
      && |h.queue| == h.committed - base + h.lost
  {
    if sessions != [] {
      DrainsLeaveNoGap(base, sessions[..|sessions| - 1], idle);
      OneMoreDrain(base, DrainAll(base, sessions[..|sessions| - 1], idle), sessions[|sessions| - 1], idle);
    }
    AlignedCovers(base, DrainAll(base, sessions, idle));
  }

  lemma {:induction false} OneMoreDrain(base: nat, h: History, s: Session, idle: int)
    requires InOrder(base, h.queue) && Aligned(base, h) && |h.queue| == h.committed - base + h.lost
    ensures var d := Drain(h.committed, s.polls, s.start, idle);
      var h' := History(d.committed, h.queue + d.queued, h.lost + d.lost);
      InOrder(base, h'.queue) && Aligned(base, h') && |h'.queue| == h'.committed - base + h'.lost
  {
    var d := Drain(h.committed, s.polls, s.start, idle);
    CleanDrainIsContiguous(h.committed, s.polls, s.start, idle);
    AppendRun(base, h, |d.queued|, d.lost);
  }

  /** The loss is real: one lost commit and the same message is forwarded again by the next drain. */
  lemma LostCommitForwardsAgain(base: nat, now: int, idle: int)
    requires idle > 0
    ensures var lost := Session(now, [Message(now, false, CommitLost)]);
      var again := Session(now, [Message(now, false, CommitDone), Quiet(now + idle)]);
      DrainAll(base, [lost, again], idle) == History(base + 1, [base, base], 1)
  {
    var lost := Session(now, [Message(now, false, CommitLost)]);
    var again := Session(now, [Message(now, false, CommitDone), Quiet(now + idle)]);
    assert [lost, again][..1] == [lost] && [lost][..0] == [];
    assert again.polls[1..] == [Quiet(now + idle)];
    assert Drain(base, lost.polls, now, idle) == Drained(base, [base], 0, 1, CommitRaised);
    assert DrainAll(base, [lost], idle) == History(base, [base], 1);
    assert Drain(base + 1, again.polls[1..], now, idle) == Drained(base + 1, [], 0, 0, IdleExit);
    assert Drain(base, again.polls, now, idle) == Drained(base + 1, [base], 1, 0, IdleExit);
  }
}
