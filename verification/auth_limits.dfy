/**
  Sliding-window limits (app/common/auth.py): the limiter of unauthenticated
  requests and the blocker of addresses with too many refused ones. Times are
  readings of one monotonic clock.
 */
module AuthLimits {
  import opened Options

  type Address = nat

  // ------------------------------------------------------------- time windows

  /** Drops what is no longer in the window; the bucket is in order of time. */
  function Recent(bucket: seq<real>, cutoff: real): seq<real> {
    if bucket == [] || bucket[0] > cutoff then bucket else Recent(bucket[1..], cutoff)
  }

  /** How many times lie in (after, upTo]. */
  function CountIn(times: seq<real>, after: real, upTo: real): nat {
    if times == [] then 0
    else
      var last := times[|times| - 1];
      CountIn(times[..|times| - 1], after, upTo) + if after < last <= upTo then 1 else 0
  }

  ghost predicate InOrder(times: seq<real>) {
    |times| <= 1 || (times[|times| - 2] <= times[|times| - 1] && InOrder(times[..|times| - 1]))
  }

  lemma {:induction false} LaterIsNotLess(times: seq<real>, i: nat, j: nat)
    requires InOrder(times) && i <= j < |times|
    ensures times[i] <= times[j]
  {
    var n := |times| - 1;
    if j < n {
      LaterIsNotLess(times[..n], i, j);
    } else if i < n {
      LaterIsNotLess(times[..n], i, n - 1);
    }
  }

  /** What a bucket still holds of all the times that went in: all but some that are past a cutoff. */
  ghost predicate Holds(bucket: seq<real>, all: seq<real>, cutoff: real) {
    && |bucket| <= |all| && (forall i | 0 <= i < |bucket| :: bucket[i] == all[|all| - |bucket| + i])
    && forall i | 0 <= i < |all| - |bucket| :: all[i] <= cutoff
  }

  lemma {:induction false} RecentHolds(bucket: seq<real>, all: seq<real>, cutoff: real)
    requires Holds(bucket, all, cutoff) && InOrder(all)
    ensures Holds(Recent(bucket, cutoff), all, cutoff)
    ensures forall i | 0 <= i < |Recent(bucket, cutoff)| :: Recent(bucket, cutoff)[i] > cutoff
    decreases |bucket|
  {
    if bucket == [] {
    } else if bucket[0] > cutoff {
      var k := |all| - |bucket|;
      forall i | 0 <= i < |bucket|
        ensures bucket[i] > cutoff
      {
        assert bucket[i] == all[k + i] && bucket[0] == all[k];
        LaterIsNotLess(all, k, k + i);
      }
    } else {
      RecentHolds(bucket[1..], all, cutoff);
    }
  }

  lemma {:induction false} CountOfSplit(times: seq<real>, k: nat, after: real, upTo: real)
    requires k <= |times|
    requires (forall i | 0 <= i < k :: times[i] <= after) && forall i | k <= i < |times| :: after < times[i] <= upTo
    ensures CountIn(times, after, upTo) == |times| - k
  {
    if |times| > k {
      CountOfSplit(times[..|times| - 1], k, after, upTo);
    } else if |times| > 0 {
      CountOfSplit(times[..|times| - 1], k - 1, after, upTo);
    }
  }

  /** After dropping, a bucket holds exactly the times in the window. */
  lemma RecentIsTheWindow(bucket: seq<real>, all: seq<real>, cutoff: real, now: real)
    requires Holds(bucket, all, cutoff) && InOrder(all) && NoneAfter(all, now)
    ensures |Recent(bucket, cutoff)| == CountIn(all, cutoff, now)
    ensures Holds(Recent(bucket, cutoff), all, cutoff)
  {
    RecentHolds(bucket, all, cutoff);
    var recent := Recent(bucket, cutoff);
    var k := |all| - |recent|;
    forall i | k <= i < |all|
      ensures cutoff < all[i] <= now
    {
      assert all[|all| - |recent| + (i - k)] == recent[i - k];
    }
    CountOfSplit(all, k, cutoff, now);
  }

  lemma {:induction false} ASmallerWindowHoldsFewer(times: seq<real>, after: real, upTo: real, after': real, upTo': real)
    requires after' <= after && forall i | 0 <= i < |times| :: times[i] <= upTo'
    ensures CountIn(times, after, upTo) <= CountIn(times, after', upTo')
  {
    if times != [] {
      ASmallerWindowHoldsFewer(times[..|times| - 1], after, upTo, after', upTo');
    }
  }

  lemma HoldsOneMore(bucket: seq<real>, all: seq<real>, cutoff: real, now: real)
    requires Holds(bucket, all, cutoff)
    ensures Holds(bucket + [now], all + [now], cutoff)
  {
  }

  lemma InOrderOneMore(all: seq<real>, now: real)
    requires InOrder(all) && NoneAfter(all, now)
    ensures InOrder(all + [now]) && NoneAfter(all + [now], now)
  {
    assert (all + [now])[..|all|] == all;
  }

  ghost predicate NoneAfter(all: seq<real>, now: real) {
    forall i | 0 <= i < |all| :: all[i] <= now
  }

  /** A bucket, as it stands now, holds all times of a window that ends now or later. */
  ghost predicate Covers(bucket: seq<real>, all: seq<real>, now: real, window: real) {
    InOrder(all) && NoneAfter(all, now) && Holds(bucket, all, now - window)
  }

  lemma TimePasses(bucket: seq<real>, all: seq<real>, now: real, later: real, window: real)
    requires Covers(bucket, all, now, window) && now <= later
    ensures Covers(bucket, all, later, window)
  {
  }

  lemma OneMoreCovers(bucket: seq<real>, all: seq<real>, now: real, window: real)
    requires Covers(bucket, all, now, window)
    ensures Covers(bucket + [now], all + [now], now, window)
  {
    HoldsOneMore(bucket, all, now - window, now);
    InOrderOneMore(all, now);
  }

  /** Dropping what is too old leaves exactly the window. */
  lemma DroppingLeavesTheWindow(bucket: seq<real>, all: seq<real>, now: real, window: real)
    requires Covers(bucket, all, now, window)
    ensures |Recent(bucket, now - window)| == CountIn(all, now - window, now)
    ensures Covers(Recent(bucket, now - window), all, now, window)
  {
    RecentIsTheWindow(bucket, all, now - window, now);
  }

  lemma CountOneMore(times: seq<real>, now: real, after: real, upTo: real)
    ensures CountIn(times + [now], after, upTo) == CountIn(times, after, upTo) + if after < now <= upTo then 1 else 0
  {
    assert (times + [now])[..|times|] == times;
  }

  // -------------------------------------------------------------- the limiter

  datatype RateRule = RateRule(enabled: bool, external: Address -> bool, requests: int, window: real)

  type Buckets = map<Address, seq<real>>

  function Bucket(b: Buckets, a: Address): seq<real> {
    if a in b then b[a] else []
  }

  function Allow(b: Buckets, rule: RateRule, a: Address, now: real): (Buckets, bool) {
    if !rule.enabled || !rule.external(a) then (b, true)
    else
      var (bucket, allowed) := Admit(Bucket(b, a), now, rule.window, rule.requests);
      (b[a := bucket], allowed)
  }

  function Admit(bucket: seq<real>, now: real, window: real, limit: int): (seq<real>, bool) {
    var recent := Recent(bucket, now - window);
    if |recent| >= limit then (recent, false) else (recent + [now], true)
  }

  lemma AdmitCovers(bucket: seq<real>, times: seq<real>, now: real, window: real, limit: int)
    requires Covers(bucket, times, now, window)
    ensures var (bucket', allowed) := Admit(bucket, now, window, limit);
            && (allowed <==> CountIn(times, now - window, now) < limit)
            && Covers(bucket', if allowed then times + [now] else times, now, window)
  {
    DroppingLeavesTheWindow(bucket, times, now, window);
    OneMoreCovers(Recent(bucket, now - window), times, now, window);
  }

  datatype Request = Request(address: Address, now: real)

  function AfterRequests(rule: RateRule, requests: seq<Request>): Buckets {
    if requests == [] then map[]
    else
      var last := requests[|requests| - 1];
      Allow(AfterRequests(rule, requests[..|requests| - 1]), rule, last.address, last.now).0
  }

  predicate WasAllowed(rule: RateRule, before: seq<Request>, r: Request) {
    Allow(AfterRequests(rule, before), rule, r.address, r.now).1
  }

  /** When requests from an address were allowed. */
  function AllowedTimes(rule: RateRule, requests: seq<Request>, a: Address): seq<real> {
    if requests == [] then []
    else
      var before, last := requests[..|requests| - 1], requests[|requests| - 1];
      AllowedTimes(rule, before, a) + if last.address == a && WasAllowed(rule, before, last) then [last.now] else []
  }

  /** The clock never runs backwards, up to now. */
  ghost predicate ClockRuns(requests: seq<Request>, now: real) {
    requests == [] || (var last := requests[|requests| - 1]; last.now <= now && ClockRuns(requests[..|requests| - 1], last.now))
  }

  ghost predicate Limited(rule: RateRule, a: Address) {
    rule.enabled && rule.external(a) && rule.window > 0.0
  }

  lemma {:induction false} BucketHoldsTheAllowed(rule: RateRule, requests: seq<Request>, a: Address, now: real)
    requires ClockRuns(requests, now) && Limited(rule, a)
    ensures Covers(Bucket(AfterRequests(rule, requests), a), AllowedTimes(rule, requests, a), now, rule.window)
  {
    if requests != [] {
      var n := |requests| - 1;
      BucketHoldsTheAllowed(rule, requests[..n], a, requests[n].now);
      OneRequestCovers(rule, AfterRequests(rule, requests[..n]), AllowedTimes(rule, requests[..n], a), a, requests[n]);
      TimePasses(Bucket(AfterRequests(rule, requests), a), AllowedTimes(rule, requests, a), requests[n].now, now, rule.window);
    }
  }

  lemma OneRequestCovers(rule: RateRule, b: Buckets, times: seq<real>, a: Address, r: Request)
    requires Limited(rule, a) && Covers(Bucket(b, a), times, r.now, rule.window)
    ensures var (b', allowed) := Allow(b, rule, r.address, r.now);
            && Covers(Bucket(b', a), times + (if r.address == a && allowed then [r.now] else []), r.now, rule.window)
            && (r.address == a ==> (allowed <==> CountIn(times, r.now - rule.window, r.now) < rule.requests))
  {
    AdmitCovers(Bucket(b, a), times, r.now, rule.window, rule.requests);
    assert times + [] == times;
  }

  /** A request of a limited address is allowed exactly when fewer than the limit were allowed in the window that ends with it. */
  lemma AllowedIffFewerInTheWindow(rule: RateRule, before: seq<Request>, r: Request)
    requires ClockRuns(before, r.now) && Limited(rule, r.address)
    ensures WasAllowed(rule, before, r) <==>
              CountIn(AllowedTimes(rule, before, r.address), r.now - rule.window, r.now) < rule.requests
  {
    BucketHoldsTheAllowed(rule, before, r.address, r.now);
    OneRequestCovers(rule, AfterRequests(rule, before), AllowedTimes(rule, before, r.address), r.address, r);
  }

  /** Addresses outside the rule, or all while it is off, are always allowed, and leave no trace. */
  lemma OthersAreAlwaysAllowed(rule: RateRule, b: Buckets, r: Request)
    ensures !(rule.enabled && rule.external(r.address)) ==> Allow(b, rule, r.address, r.now) == (b, true)
    ensures forall other | other != r.address :: Bucket(Allow(b, rule, r.address, r.now).0, other) == Bucket(b, other)
  {
  }

  /** So no window of that length, wherever it lies, ever holds more allowed requests than the limit. */
  lemma {:induction false} NoWindowHoldsMore(rule: RateRule, requests: seq<Request>, a: Address, now: real, t: real)
    requires ClockRuns(requests, now) && Limited(rule, a) && rule.requests >= 0
    ensures CountIn(AllowedTimes(rule, requests, a), t - rule.window, t) <= rule.requests
  {
    if requests != [] {
      var n := |requests| - 1;
      var before, last := requests[..n], requests[n];
      NoWindowHoldsMore(rule, before, a, last.now, t);
      if last.address == a && WasAllowed(rule, before, last) {
        AllowedIffFewerInTheWindow(rule, before, last);
        BucketHoldsTheAllowed(rule, before, a, last.now);
        OneMoreInTheWindow(AllowedTimes(rule, before, a), last.now, t, rule.window, rule.requests);
      } else {
        assert AllowedTimes(rule, requests, a) == AllowedTimes(rule, before, a);
      }
    }
  }

  lemma OneMoreInTheWindow(times: seq<real>, now: real, t: real, window: real, limit: int)
    requires NoneAfter(times, now) && CountIn(times, now - window, now) < limit && CountIn(times, t - window, t) <= limit
    ensures CountIn(times + [now], t - window, t) <= limit
  {
    CountOneMore(times, now, t - window, t);
    if now <= t {
      ASmallerWindowHoldsFewer(times, t - window, t, now - window, now);
    }
  }

  // -------------------------------------------------------------- the blocker

  datatype BlockRule = BlockRule(enabled: bool, exempt: Address -> bool, threshold: int, window: real, duration: real)

  datatype Blocker = Blocker(buckets: Buckets, until: map<Address, real>)

  function IsBlocked(s: Blocker, rule: BlockRule, a: Address, now: real): (Blocker, bool) {
    if !rule.enabled || rule.exempt(a) || a !in s.until then (s, false)
    else if now >= s.until[a] then (Blocker(s.buckets - {a}, s.until - {a}), false)
    else (s, true)
  }

  function Record(s: Blocker, rule: BlockRule, a: Address, now: real): (Blocker, bool) {
    if !rule.enabled || rule.exempt(a) || a in s.until then (s, false)
    else
      var bucket := Recent(Bucket(s.buckets, a), now - rule.window) + [now];
      if |bucket| < rule.threshold then (s.(buckets := s.buckets[a := bucket]), false)
      else (Blocker(s.buckets - {a}, s.until[a := now + rule.duration]), true)
  }

  /** A request asks before it is served, and a served one may be refused with a 401; requests may overlap. */
  datatype Event = Ask(address: Address, now: real) | Refuse(address: Address, now: real)

  /** The new state, and the answer: whether the address is blocked, or has just been. */
  function Step(s: Blocker, rule: BlockRule, e: Event): (Blocker, bool) {
    match e
    case Ask(a, now) => IsBlocked(s, rule, a, now)
    case Refuse(a, now) => Record(s, rule, a, now)
  }

  function AfterEvents(rule: BlockRule, events: seq<Event>): Blocker {
    if events == [] then Blocker(map[], map[])
    else Step(AfterEvents(rule, events[..|events| - 1]), rule, events[|events| - 1]).0
  }

  predicate AnswerTo(rule: BlockRule, before: seq<Event>, e: Event) {
    Step(AfterEvents(rule, before), rule, e).1
  }

  /** A block forgets the refusals that led to it, and an exempt or blocked address is never counted. */
  lemma ABlockStartsAfresh(s: Blocker, rule: BlockRule, a: Address, now: real)
    ensures var (s', blocked) := Record(s, rule, a, now);
            && (blocked ==> a !in s'.buckets && a !in s.until && s'.until == s.until[a := now + rule.duration])
            && (!blocked ==> s'.until == s.until)
            && (!rule.enabled || rule.exempt(a) || a in s.until ==> (s', blocked) == (s, false))
            && (forall other | other != a :: Bucket(s'.buckets, other) == Bucket(s.buckets, other))
  {
  }

  /** What the rule says of one address: every refusal since it was last unblocked, and until when it is blocked. */
  datatype Standing = Standing(refusals: seq<real>, until: Option<real>)

  /** A block ends with the first question after its time. */
  function Asked(st: Standing, now: real): Standing {
    if st.until.Some? && now >= st.until.value then Standing([], None) else st
  }

  function Refused(st: Standing, rule: BlockRule, now: real): Standing {
    if st.until.Some? then st
    else if CountIn(st.refusals, now - rule.window, now) + 1 >= rule.threshold then Standing([], Some(now + rule.duration))
    else Standing(st.refusals + [now], None)
  }

  function StandingAfter(st: Standing, rule: BlockRule, a: Address, e: Event): Standing {
    if e.address != a then st else if e.Ask? then Asked(st, e.now) else Refused(st, rule, e.now)
  }

  function StandingOf(rule: BlockRule, events: seq<Event>, a: Address): Standing {
    if events == [] then Standing([], None)
    else StandingAfter(StandingOf(rule, events[..|events| - 1], a), rule, a, events[|events| - 1])
  }

  ghost predicate Refusable(rule: BlockRule, a: Address) {
    rule.enabled && !rule.exempt(a) && rule.window > 0.0 && rule.threshold >= 1
  }

  /** The clock never runs backwards for an address, up to now. */
  ghost predicate InTime(events: seq<Event>, a: Address, now: real) {
    events == [] ||
    (var last := events[|events| - 1];
     if last.address == a then last.now <= now && InTime(events[..|events| - 1], a, last.now)
     else InTime(events[..|events| - 1], a, now))
  }

  /** The blocker and the rule agree about an address. */
  ghost predicate Agree(s: Blocker, st: Standing, rule: BlockRule, a: Address, now: real) {
    && (st.until.Some? <==> a in s.until)
    && (st.until.Some? ==> s.until[a] == st.until.value && st.refusals == [])
    && (st.until.None? ==> Covers(Bucket(s.buckets, a), st.refusals, now, rule.window))
    && NoneAfter(st.refusals, now) && CountIn(st.refusals, now - rule.window, now) < rule.threshold
  }

  lemma WaitingAgrees(s: Blocker, st: Standing, rule: BlockRule, a: Address, before: real, now: real)
    requires Refusable(rule, a) && before <= now && Agree(s, st, rule, a, before)
    ensures Agree(s, st, rule, a, now)
  {
    ASmallerWindowHoldsFewer(st.refusals, now - rule.window, now, before - rule.window, before);
  }

  lemma AskingAgrees(s: Blocker, st: Standing, rule: BlockRule, a: Address, now: real)
    requires Refusable(rule, a) && Agree(s, st, rule, a, now)
    ensures var (s', blocked) := IsBlocked(s, rule, a, now);
            && Agree(s', Asked(st, now), rule, a, now)
            && (blocked <==> st.until.Some? && now < st.until.value)
  {
  }

  lemma RefusingAgrees(s: Blocker, st: Standing, rule: BlockRule, a: Address, now: real)
    requires Refusable(rule, a) && Agree(s, st, rule, a, now)
    ensures var (s', nowBlocked) := Record(s, rule, a, now);
            && Agree(s', Refused(st, rule, now), rule, a, now)
            && (nowBlocked <==> st.until.None? && CountIn(st.refusals, now - rule.window, now) + 1 == rule.threshold)
  {
    if st.until.None? {
      DroppingLeavesTheWindow(Bucket(s.buckets, a), st.refusals, now, rule.window);
      OneMoreCovers(Recent(Bucket(s.buckets, a), now - rule.window), st.refusals, now, rule.window);
      CountOneMore(st.refusals, now, now - rule.window, now);
    }
  }

  lemma OthersAreUntouched(s: Blocker, rule: BlockRule, e: Event, a: Address)
    requires e.address != a
    ensures var s' := Step(s, rule, e).0;
            && (a in s'.until <==> a in s.until) && (a in s.until ==> s'.until[a] == s.until[a])
            && Bucket(s'.buckets, a) == Bucket(s.buckets, a)
  {
  }

  lemma {:induction false} TheBlockerFollowsTheRule(rule: BlockRule, events: seq<Event>, a: Address, now: real)
    requires Refusable(rule, a) && InTime(events, a, now)
    ensures Agree(AfterEvents(rule, events), StandingOf(rule, events, a), rule, a, now)
  {
    if events != [] {
      var n := |events| - 1;
      var e, s, st := events[n], AfterEvents(rule, events[..n]), StandingOf(rule, events[..n], a);
      TheBlockerFollowsTheRule(rule, events[..n], a, if e.address == a then e.now else now);
      OneEventAgrees(s, st, rule, a, e, now);
    }
  }

  lemma OneEventAgrees(s: Blocker, st: Standing, rule: BlockRule, a: Address, e: Event, now: real)
    requires Refusable(rule, a) && (e.address == a ==> e.now <= now)
    requires Agree(s, st, rule, a, if e.address == a then e.now else now)
    ensures Agree(Step(s, rule, e).0, StandingAfter(st, rule, a, e), rule, a, now)
  {
    if e.address != a {
      OthersAreUntouched(s, rule, e, a);
    } else {
      match e {
        case Ask(_, t) => AskingAgrees(s, st, rule, a, t);
        case Refuse(_, t) => RefusingAgrees(s, st, rule, a, t);
      }
      WaitingAgrees(Step(s, rule, e).0, StandingAfter(st, rule, a, e), rule, a, e.now, now);
    }
  }

  // ------------------------------------------------------------- main results

  /**
    After any history, a refusal blocks its address exactly when the address
    is not blocked and it is the threshold-th refusal in the window since the
    address was last unblocked.
   */
  lemma BlockedExactlyOnTheThreshold(rule: BlockRule, before: seq<Event>, a: Address, t: real)
    requires Refusable(rule, a) && InTime(before, a, t)
    ensures var st := StandingOf(rule, before, a);
            AnswerTo(rule, before, Refuse(a, t)) <==>
              st.until.None? && CountIn(st.refusals, t - rule.window, t) + 1 == rule.threshold
  {
    TheBlockerFollowsTheRule(rule, before, a, t);
    RefusingAgrees(AfterEvents(rule, before), StandingOf(rule, before, a), rule, a, t);
  }

  /** Whatever happens before the time of a block is over neither prolongs nor lifts it. */
  lemma {:induction false} ABlockLasts(rule: BlockRule, before: seq<Event>, since: seq<Event>, a: Address, until: real)
    requires StandingOf(rule, before, a) == Standing([], Some(until))
    requires forall i | 0 <= i < |since| && since[i].address == a && since[i].Ask? :: since[i].now < until
    ensures StandingOf(rule, before + since, a) == Standing([], Some(until))
  {
    if since == [] {
      assert before + since == before;
    } else {
      var n := |since| - 1;
      ABlockLasts(rule, before, since[..n], a, until);
      assert (before + since)[..|before + since| - 1] == before + since[..n];
    }
  }

  lemma TheBlockingRefusal(rule: BlockRule, before: seq<Event>, a: Address, t: real)
    requires Refusable(rule, a) && InTime(before, a, t) && AnswerTo(rule, before, Refuse(a, t))
    ensures StandingOf(rule, before + [Refuse(a, t)], a) == Standing([], Some(t + rule.duration))
  {
    BlockedExactlyOnTheThreshold(rule, before, a, t);
    assert (before + [Refuse(a, t)])[..|before|] == before;
  }

  /** From the refusal that blocks it at t, an address is blocked exactly in [t, t + duration), as far as anyone asked. */
  lemma BlockedExactlyForTheDuration(rule: BlockRule, before: seq<Event>, a: Address, t: real, since: seq<Event>,
                                     events: seq<Event>, now: real)
    requires Refusable(rule, a) && InTime(before, a, t) && AnswerTo(rule, before, Refuse(a, t))
    requires events == before + [Refuse(a, t)] + since && InTime(events, a, now)
    requires forall i | 0 <= i < |since| && since[i].address == a && since[i].Ask? :: since[i].now < t + rule.duration
    ensures AnswerTo(rule, events, Ask(a, now)) <==> now < t + rule.duration
  {
    TheBlockingRefusal(rule, before, a, t);
    ABlockLasts(rule, before + [Refuse(a, t)], since, a, t + rule.duration);
    AskedWhileBlocked(rule, events, a, now, t + rule.duration);
  }

  lemma AskedWhileBlocked(rule: BlockRule, events: seq<Event>, a: Address, now: real, until: real)
    requires Refusable(rule, a) && InTime(events, a, now) && StandingOf(rule, events, a) == Standing([], Some(until))
    ensures AnswerTo(rule, events, Ask(a, now)) <==> now < until
  {
    TheBlockerFollowsTheRule(rule, events, a, now);
    AskingAgrees(AfterEvents(rule, events), StandingOf(rule, events, a), rule, a, now);
  }

  /** An address that the rule does not block is never reported as blocked, and the other way round. */
  lemma AskedAtAnyTime(rule: BlockRule, before: seq<Event>, a: Address, now: real)
    requires Refusable(rule, a) && InTime(before, a, now)
    ensures AnswerTo(rule, before, Ask(a, now)) <==> Asked(StandingOf(rule, before, a), now).until.Some?
  {
    TheBlockerFollowsTheRule(rule, before, a, now);
    AskingAgrees(AfterEvents(rule, before), StandingOf(rule, before, a), rule, a, now);
  }

  // ------------------------------------------------------------- the loops

  method PopExpired(bucket: seq<real>, cutoff: real) returns (recent: seq<real>)
    ensures recent == Recent(bucket, cutoff)
  {
    recent := bucket;
    while recent != [] && recent[0] <= cutoff
      invariant Recent(recent, cutoff) == Recent(bucket, cutoff)
      decreases |recent|
    {
      recent := recent[1..];
    }
  }

  class UnauthenticatedLimiter {
    var buckets: Buckets

    constructor ()
      ensures buckets == map[]
    {
      buckets := map[];
    }

    method RequestAllowed(rule: RateRule, a: Address, now: real) returns (allowed: bool)
      modifies this
      ensures (buckets, allowed) == Allow(old(buckets), rule, a, now)
    {
      if !rule.enabled || !rule.external(a) {
        return true;
      }
      var recent := PopExpired(Bucket(buckets, a), now - rule.window);
      assert Admit(Bucket(buckets, a), now, rule.window, rule.requests).1 <==> |recent| < rule.requests;
      if |recent| >= rule.requests {
        buckets := buckets[a := recent];
        return false;
      }
      buckets := buckets[a := recent + [now]];
      return true;
    }
  }

  class AuthBlocker {
    var buckets: Buckets
    var until: map<Address, real>

    function Contents(): Blocker
      reads this
    {
      Blocker(buckets, until)
    }

    constructor ()
      ensures Contents() == Blocker(map[], map[])
    {
      buckets, until := map[], map[];
    }

    method IsIpBlocked(rule: BlockRule, a: Address, now: real) returns (blocked: bool)
      modifies this
      ensures (Contents(), blocked) == IsBlocked(old(Contents()), rule, a, now)
    {
      if !rule.enabled || rule.exempt(a) || a !in until {
        return false;
      }
      if now >= until[a] {
        until := until - {a};
        buckets := buckets - {a};
        return false;
      }
      return true;
    }

    method RecordUnauthorizedResponse(rule: BlockRule, a: Address, now: real) returns (nowBlocked: bool)
      modifies this
      ensures (Contents(), nowBlocked) == Record(old(Contents()), rule, a, now)
    {
      if !rule.enabled || rule.exempt(a) || a in until {
        return false;
      }
      var bucket := PopExpired(Bucket(buckets, a), now - rule.window);
      bucket := bucket + [now];
      if |bucket| < rule.threshold {
        buckets := buckets[a := bucket];
        return false;
      }
      until := until[a := now + rule.duration];
      buckets := buckets - {a};
      return true;
    }
  }
}
