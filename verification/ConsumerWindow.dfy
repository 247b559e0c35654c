/**
 The bounded consumer window (blueprints/consumer/topic/extractor/main.py,
 run_window with stop_after > 0): sessions of polling and forwarding until a
 deadline or a quiet spell, with a retry delay after a session that failed. How
 long each call takes comes from the environment, within bounds; the broker has
 finitely many events to deliver, after which every poll runs into its timeout.
 */
module ConsumerWindow {
  import opened Seqs

  datatype Event =
    | Quiet(took: nat)
    | EndOfPartition(took: nat)
    | PollError(took: nat)
    | Message(pollTook: nat, forwardTook: nat, forwardRaises: bool)

  /** Upper bounds of each call, the poll timeout, the retry delay and DRAIN_IDLE_SECS. */
  datatype Limits = Limits(
    poll: nat, forward: nat, flush: nat, close: nat, open: nat, pollTimeout: nat, retry: nat, idle: int)

  /** Durations of opening, flushing and closing, by session number. */
  datatype Durations = Durations(open: nat -> nat, flush: nat -> nat, close: nat -> nat)

  ghost predicate Within(l: Limits, events: seq<Event>, d: Durations) {
    && 0 < l.pollTimeout <= l.poll
    && (forall n :: d.open(n) <= l.open && d.flush(n) <= l.flush && d.close(n) <= l.close)
    && (forall e :: e in events ==>
          match e
          case Quiet(took) => took <= l.poll
          case EndOfPartition(took) => took <= l.poll
          case PollError(took) => took <= l.poll
          case Message(pollTook, forwardTook, _) => pollTook <= l.poll && forwardTook <= l.forward)
  }

  function IsMessage(): Event -> bool {
    (e: Event) => e.Message?
  }

  function Max(a: int, b: int): int {
    if a >= b then a else b
  }

  /** How far past its deadline a window can run. */
  function Overrun(l: Limits): nat {
    Max(Max(l.poll + l.forward, l.open) + l.flush + l.close, l.retry)
  }

  datatype SessionEnd = HitDeadline | WentIdle | Failed

  /** How long a poll took, with the forward it led to. */
  function Took(e: Event): nat {
    match e
    case Quiet(took) => took
    case EndOfPartition(took) => took
    case PollError(took) => took
    case Message(pollTook, forwardTook, _) => pollTook + forwardTook
  }

  predicate Forwards(e: Event) {
    e.Message? && !e.forwardRaises
  }

  /** The i-th poll of a window finds the next event, or nothing once all were delivered. */
  function Found(l: Limits, events: seq<Event>, i: nat): Event {
    if i < |events| then events[i] else Quiet(l.pollTimeout)
  }

  /** The polls a consumer's loop makes, when it ends and why. */
  datatype Outcome = Outcome(polls: seq<Event>, ended: int, end: SessionEnd)

  function AfterPolls(polls: seq<Event>, rest: Outcome): Outcome {
    rest.(polls := polls + rest.polls)
  }

  /** A consumer's loop from event i on, with the clock at now and the last forward, or the beginning, at last. */
  function Loop(l: Limits, events: seq<Event>, deadline: int, i: nat, now: int, last: int): (o: Outcome)
    requires l.pollTimeout > 0
    ensures o.end == Failed ==> 0 < |o.polls| <= |events| - i
    ensures o.end == HitDeadline ==> o.ended >= deadline
    decreases if i < |events| then |events| - i else 0, deadline - now
  {
    if now >= deadline then Outcome([], now, HitDeadline)
    else
      var e := Found(l, events, i);
      var done := now + Took(e);
      if e.Quiet? && done - last >= l.idle then Outcome([e], done, WentIdle)
      else if e.PollError? || (e.Message? && e.forwardRaises) then Outcome([e], done, Failed)
      else AfterPolls([e], Loop(l, events, deadline, i + 1, done, if Forwards(e) then done else last))
  }

  lemma OnePolled(polls: seq<Event>, e: Event, rest: Outcome)
    ensures AfterPolls(polls, AfterPolls([e], rest)) == AfterPolls(polls + [e], rest)
  {
    ConcatAssociates(polls, [e], rest.polls);
  }

  /** The numbers of the events in [from, next) that are forwarded. */
  function Forwarded(events: seq<Event>, from: nat, next: nat): seq<nat>
    requires from <= next <= |events|
    decreases next
  {
    if from == next then []
    else Forwarded(events, from, next - 1) + if Forwards(events[next - 1]) then [next - 1] else []
  }

  /** How many of the events in [from, next) are messages. */
  function Messages(events: seq<Event>, from: nat, next: nat): nat
    requires from <= next <= |events|
    decreases next
  {
    if from == next then 0 else Messages(events, from, next - 1) + if events[next - 1].Message? then 1 else 0
  }

  /** Where a loop that began at event `from` stands in the events after so many polls. */
  function Position(events: seq<Event>, from: nat, polled: nat): nat {
    if from + polled <= |events| then from + polled else |events|
  }

  /** One session's polling loop, entered at `start` with the consumer subscribed. */
  method PollSession(l: Limits, events: seq<Event>, from: nat, start: int, deadline: int)
      returns (o: Outcome, next: nat, processed: nat, forwarded: seq<nat>)
    requires l.pollTimeout > 0 && from <= |events|
    ensures o == Loop(l, events, deadline, from, start, start)
    ensures from <= next == Position(events, from, |o.polls|)
    ensures processed == Messages(events, from, next) && forwarded == Forwarded(events, from, next)
  {
    next, processed, forwarded := from, 0, [];
    var now, lastMessage, polls, end, i := start, start, [], HitDeadline, from;
    while true
      invariant i == from + |polls| && from <= next == Position(events, from, |polls|) && end == HitDeadline
      invariant Loop(l, events, deadline, from, start, start)
             == AfterPolls(polls, Loop(l, events, deadline, i, now, lastMessage))
      invariant processed == Messages(events, from, next) && forwarded == Forwarded(events, from, next)
      decreases |events| - next, deadline - now
    {
      if now >= deadline {
        break;
      }
      var e := Found(l, events, i);
      if next < |events| {
        next := next + 1;
      }
      i := i + 1;
      now := now + Took(e);
      if e.Quiet? {
        if now - lastMessage >= l.idle {
          polls, end := polls + [e], WentIdle;
          break;
        }
      } else if e.PollError? {
        polls, end := polls + [e], Failed;
        break;
      } else if e.Message? {
        processed := processed + 1;
        if e.forwardRaises {
          polls, end := polls + [e], Failed;
          break;
        }
        forwarded := forwarded + [next - 1];
        lastMessage := now;
      }
      OnePolled(polls, e, Loop(l, events, deadline, i, now, lastMessage));
      polls := polls + [e];
    }
    o := Outcome(polls, now, end);
  }

  /** One consumer's life: the first of its events, when its loop began, and how that went. */
  datatype Session = Session(first: nat, begun: int, outcome: Outcome)

  datatype Window = Window(sessions: seq<Session>, finish: int)

  function AfterSessions(sessions: seq<Session>, rest: Window): Window {
    rest.(sessions := sessions + rest.sessions)
  }

  lemma OneSession(sessions: seq<Session>, s: Session, rest: Window)
    ensures AfterSessions(sessions, AfterSessions([s], rest)) == AfterSessions(sessions + [s], rest)
  {
    ConcatAssociates(sessions, [s], rest.sessions);
  }

  /** When session n's consumer was closed, its messages flushed first. */
  function Closed(d: Durations, o: Outcome, n: nat): int {
    o.ended + d.flush(n) + d.close(n)
  }

  /** The window from its n-th session on, with the clock at now. */
  function WindowFrom(l: Limits, events: seq<Event>, d: Durations, deadline: int, n: nat, consumed: nat, now: int)
      : (w: Window)
    requires l.pollTimeout > 0 && consumed <= |events|
    ensures now < deadline ==> w.sessions != []
    decreases |events| - consumed
  {
    if now >= deadline then Window([], now)
    else
      var begun := now + d.open(n);
      var o := Loop(l, events, deadline, consumed, begun, begun);
      var s, closed := Session(consumed, begun, o), Closed(d, o, n);
      if o.end == WentIdle || closed >= deadline then Window([s], closed)
      else
        var next := Position(events, consumed, |o.polls|);
        AfterSessions([s], WindowFrom(l, events, d, deadline, n + 1, next, closed + l.retry))
  }

  /** One more session of a window, told by what it left behind. */
  lemma {:induction false} WindowGoesOn(
    l: Limits, events: seq<Event>, d: Durations, deadline: int, before: seq<Session>, n: nat, now: int, s: Session,
    next: nat, closed: int, m: nat, after: int)
    requires l.pollTimeout > 0 && s.first <= |events| && now < deadline && s.begun == now + d.open(n)
    requires s.outcome == Loop(l, events, deadline, s.first, s.begun, s.begun)
    requires next == Position(events, s.first, |s.outcome.polls|) && closed == Closed(d, s.outcome, n)
    requires m == n + 1 && after == closed + l.retry
    ensures var w := AfterSessions(before, WindowFrom(l, events, d, deadline, n, s.first, now));
      if s.outcome.end == WentIdle || closed >= deadline then w == Window(before + [s], closed)
      else w == AfterSessions(before + [s], WindowFrom(l, events, d, deadline, m, next, after))
  {
    if s.outcome.end != WentIdle && closed < deadline {
      OneSession(before, s, WindowFrom(l, events, d, deadline, m, next, after));
    }
  }

  lemma {:induction false} WindowIsOver(
    l: Limits, events: seq<Event>, d: Durations, deadline: int, before: seq<Session>, n: nat, consumed: nat, now: int)
    requires l.pollTimeout > 0 && consumed <= |events| && now >= deadline
    ensures AfterSessions(before, WindowFrom(l, events, d, deadline, n, consumed, now)) == Window(before, now)
  {
    assert before + [] == before;
  }

  lemma ReachedMore(events: seq<Event>, sessions: seq<Session>, s: Session)
    ensures Reached(events, sessions + [s]) == Position(events, s.first, |s.outcome.polls|)
  {
  }

  /** run_window with a time limit: every consumer it creates is flushed for and closed once. */
  method RunWindow(l: Limits, events: seq<Event>, d: Durations, start: int, stopAfter: int)
      returns (w: Window, consumed: nat, created: nat, flushed: nat, closed: nat, processed: nat, forwarded: seq<nat>)
    requires l.pollTimeout > 0 && stopAfter > 0
    ensures w == WindowFrom(l, events, d, start + stopAfter, 0, 0, start)
    ensures created == flushed == closed == |w.sessions| > 0
    ensures consumed == Reached(events, w.sessions)
    ensures processed == Messages(events, 0, consumed) && forwarded == Forwarded(events, 0, consumed)
  {
    var deadline := start + stopAfter;
    ghost var whole := WindowFrom(l, events, d, deadline, 0, 0, start);
    var finish, sessions := start, [];
    consumed, created, flushed, closed, processed, forwarded := 0, 0, 0, 0, 0, [];
    while true
      invariant created == flushed == closed == |sessions| && consumed == Reached(events, sessions)
      invariant whole == AfterSessions(sessions, WindowFrom(l, events, d, deadline, created, consumed, finish))
      invariant Counted(events, consumed, processed, forwarded)
      decreases |events| - consumed
    {
      if finish >= deadline {
        WindowIsOver(l, events, d, deadline, sessions, created, consumed, finish);
        break;
      }
      ghost var before, session := finish, created;
      finish := finish + d.open(created);
      created := created + 1;
      var o, next, count, added := PollSession(l, events, consumed, finish, deadline);
      var s := Session(consumed, finish, o);
      CountedOn(events, consumed, next, processed, forwarded, count, added);
      processed := processed + count;
      forwarded := forwarded + added;
      finish := o.ended + d.flush(flushed);
      flushed := flushed + 1;
      finish := finish + d.close(closed);
      closed := closed + 1;
      ghost var after := finish + l.retry;
      WindowGoesOn(l, events, d, deadline, sessions, session, before, s, next, finish, created, after);
      ReachedMore(events, sessions, s);
      sessions, consumed := sessions + [s], next;
      if o.end == WentIdle || finish >= deadline {
        break;
      }
      finish := finish + l.retry;
      assert finish == after;
    }
    assert whole == Window(sessions, finish);
    w := Window(sessions, finish);
  }

  /** How many events the sessions got. */
  function Reached(events: seq<Event>, sessions: seq<Session>): (n: nat)
    ensures n <= |events|
  {
    if sessions == [] then 0
    else
      var s := sessions[|sessions| - 1];
      Position(events, s.first, |s.outcome.polls|)
  }

  /** The messages and forwards of all events up to here. */
  ghost predicate Counted(events: seq<Event>, consumed: nat, processed: nat, forwarded: seq<nat>)
    requires consumed <= |events|
  {
    processed == Messages(events, 0, consumed) && forwarded == Forwarded(events, 0, consumed)
  }

  lemma CountedOn(
    events: seq<Event>, from: nat, next: nat, processed: nat, forwarded: seq<nat>, count: nat, added: seq<nat>)
    requires from <= next <= |events| && Counted(events, from, processed, forwarded)
    requires count == Messages(events, from, next) && added == Forwarded(events, from, next)
    ensures Counted(events, next, processed + count, forwarded + added)
  {
    Joined(events, from, next);
  }

  lemma {:induction false} Joined(events: seq<Event>, from: nat, next: nat)
    requires from <= next <= |events|
    ensures Messages(events, 0, next) == Messages(events, 0, from) + Messages(events, from, next)
    ensures Forwarded(events, 0, next) == Forwarded(events, 0, from) + Forwarded(events, from, next)
    decreases next
  {
    if from < next {
      Joined(events, from, next - 1);
    }
  }

  // ---- What a session's loop does, poll by poll ----

  function Spent(polls: seq<Event>): nat {
    if polls == [] then 0 else Took(polls[0]) + Spent(polls[1..])
  }

  /** When the last of these polls that forwarded had done so, or `last` if none did. */
  function LastForward(now: int, last: int, polls: seq<Event>): int
    decreases |polls|
  {
    if polls == [] then last
    else
      var done := now + Took(polls[0]);
      LastForward(done, if Forwards(polls[0]) then done else last, polls[1..])
  }

  /**
   Poll e, made after the others, is one that ends a session: an error, a forward that raises, or quiet for
   the idle time since the last forward.
   */
  predicate Stops(now: int, last: int, before: seq<Event>, e: Event, idle: int) {
    match e
    case Quiet(took) => now + Spent(before) + took - LastForward(now, last, before) >= idle
    case EndOfPartition(_) => false
    case PollError(_) => true
    case Message(_, _, forwardRaises) => forwardRaises
  }

  lemma OneEarlier(now: int, last: int, before: seq<Event>, first: Event, e: Event, idle: int)
    requires before != [] && before[0] == first
    ensures Spent(before) == Took(first) + Spent(before[1..])
    ensures Stops(now, last, before, e, idle)
        <==> Stops(now + Took(first), if Forwards(first) then now + Took(first) else last, before[1..], e, idle)
  {
  }

  /** A first poll that does not end its loop, and the rest of the loop. */
  lemma {:induction false} LoopRest(l: Limits, events: seq<Event>, deadline: int, i: nat, now: int, last: int)
      returns (e: Event, j: nat, done: int, since: int, rest: Outcome)
    requires l.pollTimeout > 0 && now < deadline && !Stops(now, last, [], Found(l, events, i), l.idle)
    ensures e == Found(l, events, i) && j == i + 1 && done == now + Took(e)
    ensures since == (if Forwards(e) then done else last) && rest == Loop(l, events, deadline, j, done, since)
    ensures Loop(l, events, deadline, i, now, last) == AfterPolls([e], rest)
    ensures rest.end != HitDeadline ==> rest.polls != []
    ensures if i < |events| then |events| - j < |events| - i else deadline - done < deadline - now
  {
    e, j := Found(l, events, i), i + 1;
    done := now + Took(e);
    since := if Forwards(e) then done else last;
    rest := Loop(l, events, deadline, j, done, since);
  }

  /** A first poll that ends its loop. */
  lemma {:induction false} LoopOver(l: Limits, events: seq<Event>, deadline: int, i: nat, now: int, last: int)
    requires l.pollTimeout > 0 && now < deadline && Stops(now, last, [], Found(l, events, i), l.idle)
    ensures var o, e := Loop(l, events, deadline, i, now, last), Found(l, events, i);
      o.polls == [e] && o.ended == now + Took(e) && o.end == if e.Quiet? then WentIdle else Failed
  {
  }

  /**
   Every poll of a loop is made before the deadline and finds the next event; the last one, unless the
   deadline ended the loop, is of the ending kind, and no other is.
   */
  lemma {:induction false} PollsExactly(
    l: Limits, events: seq<Event>, deadline: int, i: nat, now: int, last: int, k: nat, at: nat)
    requires l.pollTimeout > 0 && k < |Loop(l, events, deadline, i, now, last).polls| && at == i + k
    ensures var o := Loop(l, events, deadline, i, now, last);
      && o.polls[k] == (if at < |events| then events[at] else Quiet(l.pollTimeout))
      && now + Spent(o.polls[..k]) < deadline
      && (Stops(now, last, o.polls[..k], o.polls[k], l.idle) <==> k == |o.polls| - 1 && o.end != HitDeadline)
    decreases k
  {
    var polls := Loop(l, events, deadline, i, now, last).polls;
    assert polls[..0] == [];
    if Stops(now, last, [], Found(l, events, i), l.idle) {
      LoopOver(l, events, deadline, i, now, last);
    } else {
      var e, j, done, since, rest := LoopRest(l, events, deadline, i, now, last);
      if k > 0 {
        assert polls[..k][1..] == rest.polls[..k - 1] && polls[..k][0] == e && polls[k] == rest.polls[k - 1];
        PollsExactly(l, events, deadline, j, done, since, k - 1, at);
        OneEarlier(now, last, polls[..k], e, polls[k], l.idle);
      }
    }
  }

  /**
   A loop's end comes after exactly its polls: at or past the deadline, or by a last poll that is quiet or
   that fails.
   */
  lemma {:induction false} EndsExactly(l: Limits, events: seq<Event>, deadline: int, i: nat, now: int, last: int)
    requires l.pollTimeout > 0
    ensures var o := Loop(l, events, deadline, i, now, last);
      && o.ended == now + Spent(o.polls)
      && (o.end == HitDeadline ==> o.ended >= deadline)
      && (o.end != HitDeadline ==> o.polls != [] && (o.end == WentIdle <==> o.polls[|o.polls| - 1].Quiet?))
    decreases if i < |events| then |events| - i else 0, deadline - now
  {
    if now < deadline {
      if Stops(now, last, [], Found(l, events, i), l.idle) {
        LoopOver(l, events, deadline, i, now, last);
        SpentFirst(Found(l, events, i), []);
      } else {
        var e, j, done, since, rest := LoopRest(l, events, deadline, i, now, last);
        EndsExactly(l, events, deadline, j, done, since);
        SpentFirst(e, rest.polls);
      }
    }
  }

  lemma SpentFirst(e: Event, polls: seq<Event>)
    ensures Spent([e] + polls) == Took(e) + Spent(polls)
  {
    assert ([e] + polls)[1..] == polls;
  }

  lemma {:induction false} LastForwardSince(now: int, last: int, polls: seq<Event>)
    requires last <= now
    ensures last <= LastForward(now, last, polls) <= now + Spent(polls)
    decreases |polls|
  {
    if polls != [] {
      var done := now + Took(polls[0]);
      LastForwardSince(done, if Forwards(polls[0]) then done else last, polls[1..]);
    }
  }

  lemma {:induction false} LastForwardIsLast(now: int, last: int, polls: seq<Event>, k: nat)
    requires k < |polls| && Forwards(polls[k])
    ensures now + Spent(polls[..k + 1]) <= LastForward(now, last, polls)
    decreases k
  {
    var done := now + Took(polls[0]);
    var since := if Forwards(polls[0]) then done else last;
    assert polls[..k + 1][1..] == polls[1..][..k] && polls[..k + 1][0] == polls[0];
    if k == 0 {
      assert polls[1..][..0] == [];
      LastForwardSince(done, done, polls[1..]);
    } else {
      LastForwardIsLast(done, since, polls[1..], k - 1);
    }
  }

  /** A session that went idle had been on for at least the idle time, and as long since each of its forwards. */
  lemma IdleIsQuiet(l: Limits, events: seq<Event>, deadline: int, from: nat, start: int, k: nat)
    requires l.pollTimeout > 0
    requires var o := Loop(l, events, deadline, from, start, start); o.end == WentIdle && k < |o.polls|
    ensures var o := Loop(l, events, deadline, from, start, start);
      && o.ended - start >= l.idle
      && (Forwards(o.polls[k]) ==> o.ended - (start + Spent(o.polls[..k + 1])) >= l.idle)
  {
    var o := Loop(l, events, deadline, from, start, start);
    var n := |o.polls| - 1;
    EndsExactly(l, events, deadline, from, start, start);
    PollsExactly(l, events, deadline, from, start, start, n, from + n);
    QuietSince(l, start, o, k);
  }

  lemma QuietSince(l: Limits, start: int, o: Outcome, k: nat)
    requires k < |o.polls| && o.ended == start + Spent(o.polls) && o.polls[|o.polls| - 1].Quiet?
    requires Stops(start, start, o.polls[..|o.polls| - 1], o.polls[|o.polls| - 1], l.idle)
    ensures o.ended - start >= l.idle
    ensures Forwards(o.polls[k]) ==> o.ended - (start + Spent(o.polls[..k + 1])) >= l.idle
  {
    var before := o.polls[..|o.polls| - 1];
    SpentLast(o.polls);
    LastForwardSince(start, start, before);
    if Forwards(o.polls[k]) {
      LastForwardIsLast(start, start, before, k);
      assert before[..k + 1] == o.polls[..k + 1];
    }
  }

  lemma {:induction false} SpentLast(polls: seq<Event>)
    requires polls != []
    ensures Spent(polls) == Spent(polls[..|polls| - 1]) + Took(polls[|polls| - 1])
  {
    if |polls| > 1 {
      SpentLast(polls[1..]);
      assert polls[1..][..|polls| - 2] == polls[..|polls| - 1][1..];
    }
  }

  // ---- What was forwarded ----

  /** Exactly the messages whose forward does not raise are forwarded, in order and each once. */
  lemma {:induction false} ForwardedExactly(events: seq<Event>, from: nat, next: nat)
    requires from <= next <= |events|
    ensures forall i :: i in Forwarded(events, from, next) <==>
      from <= i < next && events[i].Message? && !events[i].forwardRaises
    ensures forall i, j :: 0 <= i < j < |Forwarded(events, from, next)| ==>
      Forwarded(events, from, next)[i] < Forwarded(events, from, next)[j]
    decreases next
  {
    if from < next {
      var before := Forwarded(events, from, next - 1);
      ForwardedExactly(events, from, next - 1);
      forall i | 0 <= i < |before| ensures before[i] < next - 1 {
        assert before[i] in before;
      }
    }
  }

  lemma {:induction false} MessagesExactly(events: seq<Event>, from: nat, next: nat)
    requires from <= next <= |events|
    ensures Messages(events, from, next) == |Select(events[from..next], IsMessage())|
    decreases next
  {
    if from < next {
      MessagesExactly(events, from, next - 1);
      assert events[from..next] == events[from..next - 1] + [events[next - 1]];
      SelectAppend(events[from..next - 1], events[next - 1], IsMessage());
    }
  }

  // ---- What a window does, session by session ----

  /** A first session that is retried, and the rest of the window. */
  lemma {:induction false} WindowRest(
    l: Limits, events: seq<Event>, d: Durations, deadline: int, n: nat, consumed: nat, now: int)
      returns (s: Session, closed: int, m: nat, next: nat, after: int, rest: Window)
    requires l.pollTimeout > 0 && consumed <= |events| && now < deadline
    ensures s.first == consumed && s.begun == now + d.open(n)
    ensures s.outcome == Loop(l, events, deadline, consumed, s.begun, s.begun)
    ensures closed == Closed(d, s.outcome, n) && m == n + 1 && after == closed + l.retry
    ensures next == Position(events, consumed, |s.outcome.polls|)
    ensures var w := WindowFrom(l, events, d, deadline, n, consumed, now);
      if s.outcome.end == WentIdle || closed >= deadline then w == Window([s], closed) && rest == Window([], after)
      else
        && w == AfterSessions([s], rest) && rest == WindowFrom(l, events, d, deadline, m, next, after)
        && consumed < next == consumed + |s.outcome.polls| && s.outcome.end == Failed
  {
    var begun := now + d.open(n);
    s := Session(consumed, begun, Loop(l, events, deadline, consumed, begun, begun));
    closed, m, next := Closed(d, s.outcome, n), n + 1, Position(events, consumed, |s.outcome.polls|);
    after := closed + l.retry;
    EndsExactly(l, events, deadline, consumed, begun, begun);
    if s.outcome.end == WentIdle || closed >= deadline {
      rest := Window([], after);
    } else {
      rest := WindowFrom(l, events, d, deadline, m, next, after);
    }
  }

  /** Session s is number n: it begins once opened, where and when the one before it, which failed, left off. */
  predicate Follows(l: Limits, d: Durations, before: Session, s: Session, n: nat)
    requires n > 0
  {
    && before.outcome.end == Failed && s.first == before.first + |before.outcome.polls|
    && s.begun == Closed(d, before.outcome, n - 1) + l.retry + d.open(n)
  }

  /**
   Sessions follow each other without a gap in events or in time: the first begins once opened, each other
   one where and when the one before, which failed, left off, after the retry delay and its own opening.
   */
  lemma {:induction false} SessionsFollow(
    l: Limits, events: seq<Event>, d: Durations, deadline: int, n: nat, consumed: nat, now: int, i: nat, at: nat)
    requires l.pollTimeout > 0 && consumed <= |events| && at == n + i
    requires i < |WindowFrom(l, events, d, deadline, n, consumed, now).sessions|
    ensures var ss := WindowFrom(l, events, d, deadline, n, consumed, now).sessions;
      && ss[i].first <= |events|
      && ss[i].outcome == Loop(l, events, deadline, ss[i].first, ss[i].begun, ss[i].begun)
      && if i == 0 then ss[i].first == consumed && ss[i].begun == now + d.open(at)
         else Follows(l, d, ss[i - 1], ss[i], at)
    decreases i
  {
    var s, closed, m, next, after, rest := WindowRest(l, events, d, deadline, n, consumed, now);
    if i > 0 {
      SessionsFollow(l, events, d, deadline, m, next, after, i - 1, at);
      if i == 1 {
        SecondFollows(l, events, d, n, s, closed, m, next, after, rest.sessions[0]);
      }
    }
  }

  lemma SecondFollows(
    l: Limits, events: seq<Event>, d: Durations, n: nat, s: Session, closed: int, m: nat, next: nat, after: int,
    t: Session)
    requires m == n + 1 && closed == Closed(d, s.outcome, n) && after == closed + l.retry && s.outcome.end == Failed
    requires next == s.first + |s.outcome.polls| && t.first == next && t.begun == after + d.open(m)
    ensures Follows(l, d, s, t, m)
  {
  }

  /** The time of sessions from number n on: each one's opening, polls, flush and close, and the delays in between. */
  function Busy(l: Limits, d: Durations, sessions: seq<Session>, n: nat): int
    decreases |sessions|
  {
    if sessions == [] then 0
    else
      d.open(n) + Spent(sessions[0].outcome.polls) + d.flush(n) + d.close(n)
      + (if |sessions| > 1 then l.retry else 0) + Busy(l, d, sessions[1..], n + 1)
  }

  /**
   No time passes in a window without a call: it takes the time of its sessions, and one more retry delay
   if the last session failed with time left, in which the deadline then passed.
   */
  lemma {:induction false} TimeIsAccountedFor(
    l: Limits, events: seq<Event>, d: Durations, deadline: int, n: nat, consumed: nat, now: int)
    requires l.pollTimeout > 0 && consumed <= |events| && now < deadline
    ensures var w := WindowFrom(l, events, d, deadline, n, consumed, now);
      var last := w.sessions[|w.sessions| - 1].outcome;
      var busy := now + Busy(l, d, w.sessions, n);
      && w.finish == busy + (if last.end == WentIdle || busy >= deadline then 0 else l.retry)
      && (last.end == WentIdle || w.finish >= deadline)
    decreases |events| - consumed
  {
    var s, closed, m, next, after, rest := WindowRest(l, events, d, deadline, n, consumed, now);
    EndsExactly(l, events, deadline, consumed, s.begun, s.begun);
    BusyFirst(l, d, s, rest.sessions, n, m);
    assert [s] + [] == [s];
    if rest.sessions != [] {
      TimeIsAccountedFor(l, events, d, deadline, m, next, after);
    }
  }

  lemma BusyFirst(l: Limits, d: Durations, s: Session, rest: seq<Session>, n: nat, m: nat)
    requires m == n + 1
    ensures Busy(l, d, [s] + rest, n)
         == d.open(n) + Spent(s.outcome.polls) + d.flush(n) + d.close(n)
          + (if rest != [] then l.retry else 0) + Busy(l, d, rest, m)
  {
    assert ([s] + rest)[1..] == rest;
  }

  // ---- How long it can take ----

  lemma TookWithin(l: Limits, events: seq<Event>, d: Durations, i: nat)
    requires Within(l, events, d)
    ensures Took(Found(l, events, i)) <= l.poll + l.forward
  {
    if i < |events| {
      assert events[i] in events;
    }
  }

  lemma {:induction false} LoopEndsInTime(
    l: Limits, events: seq<Event>, d: Durations, deadline: int, i: nat, now: int, last: int)
    requires Within(l, events, d)
    ensures now <= Loop(l, events, deadline, i, now, last).ended <= Max(now, deadline + l.poll + l.forward)
    decreases if i < |events| then |events| - i else 0, deadline - now
  {
    if now < deadline {
      TookWithin(l, events, d, i);
      if Stops(now, last, [], Found(l, events, i), l.idle) {
        LoopOver(l, events, deadline, i, now, last);
      } else {
        var e, j, done, since, rest := LoopRest(l, events, deadline, i, now, last);
        LoopEndsInTime(l, events, d, deadline, j, done, since);
      }
    }
  }

  /**
   A window ends, no later than its deadline plus the longest opening or poll and forward, flush and close,
   or the retry delay.
   */
  lemma {:induction false} WindowEndsInTime(
    l: Limits, events: seq<Event>, d: Durations, deadline: int, n: nat, consumed: nat, now: int)
    requires Within(l, events, d) && consumed <= |events| && now <= deadline + l.retry
    ensures now <= WindowFrom(l, events, d, deadline, n, consumed, now).finish <= deadline + Overrun(l)
    decreases |events| - consumed
  {
    if now < deadline {
      var s, closed, m, next, after, rest := WindowRest(l, events, d, deadline, n, consumed, now);
      LoopEndsInTime(l, events, d, deadline, consumed, s.begun, s.begun);
      if s.outcome.end != WentIdle && closed < deadline {
        WindowEndsInTime(l, events, d, deadline, m, next, after);
      }
    }
  }
}
