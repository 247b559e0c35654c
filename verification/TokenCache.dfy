/**
 The OTLP client's token cache (dpn_observability_sdk/otlp_auth.py, get_token and
 the expiry arithmetic of _fetch_token): a client credentials grant (section 4.4
 of RFC 6749) refreshed a margin before its expires_in (section 5.1) has run out.
 Times are whole seconds of the monotonic clock.
 */
module TokenCache {
  import opened Wrappers

  /** The server's answer: a token issued at one moment and received at another, or a raise. */
  datatype Reply =
    | Granted(token: string, expiresIn: int, issuedAt: int, receivedAt: int)
    | Raised(raisedAt: int)

  /** One get_token call: the clock when it looks, and the reply it would get by fetching. */
  datatype Call = Call(now: int, reply: Reply)

  datatype Cache = Cache(token: Option<string>, expiresAt: int)

  const EMPTY := Cache(None, 0)

  predicate Stale(c: Cache, now: int) {
    c.token.None? || now >= c.expiresAt
  }

  function After(margin: int, c: Cache, call: Call): Cache {
    if Stale(c, call.now) && call.reply.Granted? then
      Cache(Some(call.reply.token), call.reply.receivedAt + call.reply.expiresIn - margin)
    else c
  }

  function Served(c: Cache, call: Call): Option<string> {
    if !Stale(c, call.now) then c.token
    else if call.reply.Granted? then Some(call.reply.token)
    else None
  }

  /** The module's globals and get_token, under its lock. */
  class Client {
    const margin: int
    var token: Option<string>
    var expiresAt: int

    constructor (margin: int)
      ensures this.margin == margin && State() == EMPTY
    {
      this.margin, token, expiresAt := margin, None, 0;
    }

    function State(): Cache
      reads this
    {
      Cache(token, expiresAt)
    }

    /** None is the OtlpAuthError of a failed fetch, which leaves the globals as they were. */
    method GetToken(call: Call) returns (served: Option<string>)
      modifies this
      ensures served == Served(old(State()), call)
      ensures State() == After(margin, old(State()), call)
    {
      if token.None? || call.now >= expiresAt {
        match call.reply
        case Granted(granted, expiresIn, _, receivedAt) =>
          token, expiresAt := Some(granted), receivedAt + expiresIn - margin;
        case Raised(_) => return None;
      }
      served := token;
    }
  }

  function Run(margin: int, calls: seq<Call>): Cache {
    if calls == [] then EMPTY else After(margin, Run(margin, calls[..|calls| - 1]), calls[|calls| - 1])
  }

  /** Call k reaches the server. */
  predicate Fetches(margin: int, calls: seq<Call>, k: nat)
    requires k < |calls|
  {
    Stale(Run(margin, calls[..k]), calls[k].now)
  }

  /** Call k stores a token. */
  predicate Refreshes(margin: int, calls: seq<Call>, k: nat)
    requires k < |calls|
  {
    Fetches(margin, calls, k) && calls[k].reply.Granted?
  }

  function Refreshments(margin: int, calls: seq<Call>): nat {
    if calls == [] then 0
    else Refreshments(margin, calls[..|calls| - 1]) + if Refreshes(margin, calls, |calls| - 1) then 1 else 0
  }

  predicate ReplyTimed(call: Call) {
    match call.reply
    case Granted(_, _, issuedAt, receivedAt) => call.now <= issuedAt <= receivedAt
    case Raised(raisedAt) => call.now <= raisedAt
  }

  function Finished(call: Call): int {
    if call.reply.Granted? then call.reply.receivedAt else call.reply.raisedAt
  }

  /** The lock serializes calls; a call that fetches ends when its reply is in. */
  ghost predicate Timed(margin: int, calls: seq<Call>) {
    && (forall k :: 0 <= k < |calls| ==> ReplyTimed(calls[k]))
    && (forall k :: 0 < k < |calls| ==> calls[k - 1].now <= calls[k].now)
    && (forall k :: 0 < k < |calls| && Fetches(margin, calls, k - 1) ==> Finished(calls[k - 1]) <= calls[k].now)
  }

  lemma TimedFront(margin: int, calls: seq<Call>)
    requires Timed(margin, calls) && calls != []
    ensures Timed(margin, calls[..|calls| - 1])
  {
    var front := calls[..|calls| - 1];
    forall k | 0 < k < |front| && Fetches(margin, front, k - 1) ensures Finished(front[k - 1]) <= front[k].now {
      assert front[..k - 1] == calls[..k - 1];
      assert Fetches(margin, calls, k - 1);
    }
  }

  // ---- Amortised fetching ----

  predicate LifetimesAtLeast(calls: seq<Call>, lifetime: int) {
    forall k :: 0 <= k < |calls| && calls[k].reply.Granted? ==> calls[k].reply.expiresIn >= lifetime
  }

  function Times(n: nat, gap: int): int {
    if n == 0 then 0 else Times(n - 1, gap) + gap
  }

  lemma {:induction false} TimesIsProduct(n: nat, gap: int)
    ensures Times(n, gap) == n * gap
  {
    if n > 0 {
      TimesIsProduct(n - 1, gap);
      assert n * gap == (n - 1) * gap + gap;
    }
  }

  /** After n refreshes since the first call, the expiry lies n gaps and the last refresh n - 1 gaps past it. */
  predicate Paid(first: int, now: int, n: nat, c: Cache, gap: int) {
    && first <= now
    && (n == 0 <==> c.token.None?)
    && (n > 0 ==> c.expiresAt >= first + Times(n, gap) && now >= first + Times(n - 1, gap))
  }

  lemma CallKeepsPaid(margin: int, first: int, before: int, n: nat, c: Cache, gap: int, call: Call)
    requires Paid(first, before, n, c, gap) && before <= call.now && ReplyTimed(call)
    requires call.reply.Granted? ==> call.reply.expiresIn >= gap + margin
    ensures var m := if Stale(c, call.now) && call.reply.Granted? then n + 1 else n;
      Paid(first, call.now, m, After(margin, c, call), gap)
  {
  }

  lemma {:induction false} ExpiryPaysForRefreshes(margin: int, calls: seq<Call>, lifetime: int)
    requires Timed(margin, calls) && LifetimesAtLeast(calls, lifetime) && calls != []
    ensures Paid(
      calls[0].now, calls[|calls| - 1].now, Refreshments(margin, calls), Run(margin, calls), lifetime - margin)
  {
    var front, last := calls[..|calls| - 1], calls[|calls| - 1];
    if front == [] {
      CallKeepsPaid(margin, last.now, last.now, 0, EMPTY, lifetime - margin, last);
    } else {
      TimedFront(margin, calls);
      ExpiryPaysForRefreshes(margin, front, lifetime);
      CallKeepsPaid(
        margin, calls[0].now, front[|front| - 1].now, Refreshments(margin, front), Run(margin, front),
        lifetime - margin, last);
    }
  }

  /** Over a run from first to last call, successful fetches number at most 1 + T / (L - margin). */
  lemma {:induction false} RefreshesAreBounded(margin: int, calls: seq<Call>, lifetime: int)
    requires Timed(margin, calls) && LifetimesAtLeast(calls, lifetime) && lifetime > margin && calls != []
    ensures Refreshments(margin, calls) <= 1 + (calls[|calls| - 1].now - calls[0].now) / (lifetime - margin)
  {
    var n := Refreshments(margin, calls);
    ExpiryPaysForRefreshes(margin, calls, lifetime);
    if n > 0 {
      TimesIsProduct(n - 1, lifetime - margin);
      QuotientAtLeast(n - 1, calls[|calls| - 1].now - calls[0].now, lifetime - margin);
    }
  }

  lemma QuotientAtLeast(n: int, span: int, gap: int)
    requires gap > 0 && span >= 0 && span >= n * gap
    ensures n <= span / gap
  {
    var q := span / gap;
    assert span < (q + 1) * gap;
    if n > q {
      TimesGap(q + 1, n, gap);
    }
  }

  lemma TimesGap(a: int, b: int, gap: int)
    requires a <= b && gap > 0
    ensures a * gap <= b * gap
  {
  }

  /** With lifetimes no longer than the margin nothing is ever served from the cache: every call fetches. */
  lemma {:induction false} ShortLivedTokensAlwaysRefetch(margin: int, calls: seq<Call>, k: nat)
    requires Timed(margin, calls) && k < |calls|
    requires forall j :: 0 <= j < |calls| && calls[j].reply.Granted? ==> calls[j].reply.expiresIn <= margin
    ensures Fetches(margin, calls, k)
    decreases k
  {
    if k > 0 {
      ShortLivedTokensAlwaysRefetch(margin, calls, k - 1);
      assert calls[..k][..k - 1] == calls[..k - 1];
      assert Finished(calls[k - 1]) <= calls[k].now;
      if calls[k - 1].reply.Raised? {
        assert Run(margin, calls[..k]) == Run(margin, calls[..k - 1]);
      }
    }
  }

  // ---- Freshness of what is served ----

  /** The cached token and expiry are those of call g's grant. */
  predicate CachedFrom(margin: int, calls: seq<Call>, g: nat)
    requires g < |calls|
  {
    var c := Run(margin, calls);
    && calls[g].reply.Granted?
    && c == Cache(Some(calls[g].reply.token), calls[g].reply.receivedAt + calls[g].reply.expiresIn - margin)
  }

  lemma {:induction false} CacheHasASource(margin: int, calls: seq<Call>) returns (g: nat)
    requires Run(margin, calls).token.Some?
    ensures g < |calls| && Refreshes(margin, calls, g) && CachedFrom(margin, calls, g)
  {
    var front := calls[..|calls| - 1];
    if Refreshes(margin, calls, |calls| - 1) {
      g := |calls| - 1;
    } else {
      g := CacheHasASource(margin, front);
      assert front[..g] == calls[..g];
    }
  }

  /**
   Every token handed out was granted in this run; from the cache it has more than the margin
   of its lifetime left after receipt, and more than the margin less its own transit since issue.
   */
  lemma ServedTokensAreFresh(margin: int, calls: seq<Call>, k: nat) returns (g: nat)
    requires k < |calls| && Served(Run(margin, calls[..k]), calls[k]).Some?
    ensures g <= k && Refreshes(margin, calls, g)
    ensures Served(Run(margin, calls[..k]), calls[k]) == Some(calls[g].reply.token)
    ensures g == k <==> Fetches(margin, calls, k)
    ensures var grant := calls[g].reply;
      g < k ==>
        && grant.receivedAt + grant.expiresIn - calls[k].now > margin
        && grant.issuedAt + grant.expiresIn - calls[k].now > margin - (grant.receivedAt - grant.issuedAt)
  {
    if Fetches(margin, calls, k) {
      g := k;
    } else {
      g := CacheHasASource(margin, calls[..k]);
      assert calls[..k][..g] == calls[..g];
    }
  }
}
