/**
 * The fixed-window rate limiter: one counter per bucket, principal and window, which expires on its
 * own. Times are milliseconds of one clock shared with the store; the store always answers.
 */
module RateLimiter {
  import opened Prelude

  datatype Rule = Rule(bucket: string, limit: nat, windowSeconds: int) {
    predicate Valid() { windowSeconds > 0 }
  }

  datatype Decision = Decision(allowed: bool, remaining: nat, retryAfterSeconds: int)

  datatype Slot = Slot(bucket: string, principal: string, window: int)

  /** A counter without an expiry lives for ever. */
  datatype Counter = Counter(count: nat, expiresAt: Option<int>)

  type Counters = map<Slot, Counter>

  predicate Live(c: Counter, now: int) { c.expiresAt.None? || now < c.expiresAt.value }

  function NowSeconds(now: int): int { now / 1000 }

  function Window(rule: Rule, now: int): int
    requires rule.Valid()
  {
    NowSeconds(now) / rule.windowSeconds
  }

  function RetryAfter(rule: Rule, now: int): int
    requires rule.Valid()
  {
    (Window(rule, now) + 1) * rule.windowSeconds - NowSeconds(now)
  }

  function SlotOf(rule: Rule, principal: string, now: int): Slot
    requires rule.Valid()
  {
    Slot(rule.bucket, principal, Window(rule, now))
  }

  /** Incrementing a missing or expired counter starts it at one, and the first hit bounds its life. */
  function Counted(counters: Counters, slot: Slot, now: int, windowSeconds: int): Counter {
    if slot in counters && Live(counters[slot], now) then counters[slot].(count := counters[slot].count + 1)
    else Counter(1, Some(now + (windowSeconds + 1) * 1000))
  }

  function Decide(rule: Rule, count: nat, now: int): Decision
    requires rule.Valid()
  {
    if count > rule.limit then Decision(false, 0, RetryAfter(rule, now))
    else Decision(true, rule.limit - count, RetryAfter(rule, now))
  }

  // --- runs of requests ---------------------------------------------------------------------

  datatype Request = Request(rule: Rule, principal: string, at: int)

  datatype Served = Served(request: Request, decision: Decision)

  datatype Log = Log(counters: Counters, served: seq<Served>)

  function ServeOne(log: Log, q: Request): Log
    requires q.rule.Valid()
  {
    var slot := SlotOf(q.rule, q.principal, q.at);
    var c := Counted(log.counters, slot, q.at, q.rule.windowSeconds);
    Log(log.counters[slot := c], log.served + [Served(q, Decide(q.rule, c.count, q.at))])
  }

  /** The step `ServeOne` takes, whatever was served before. */
  ghost predicate ServedAs(before: Counters, q: Request, after: Counters, d: Decision) {
    q.rule.Valid() && forall h :: ServeOne(Log(before, h), q) == Log(after, h + [Served(q, d)])
  }

  predicate AllValid(qs: seq<Request>) { forall q <- qs :: q.rule.Valid() }

  function Serve(qs: seq<Request>): Log
    requires AllValid(qs)
    decreases |qs|
  {
    if qs == [] then Log(map[], []) else ServeOne(Serve(qs[..|qs| - 1]), qs[|qs| - 1])
  }

  predicate IsHit(rule: Rule, principal: string, s: Served) {
    s.request.rule == rule && s.request.principal == principal
  }

  function HitIn(rule: Rule, principal: string, window: int): Served -> int
    requires rule.Valid()
  {
    (s: Served) => if IsHit(rule, principal, s) && Window(rule, s.request.at) == window then 1 else 0
  }

  function AllowedIn(rule: Rule, principal: string, window: int): Served -> int
    requires rule.Valid()
  {
    (s: Served) =>
      if IsHit(rule, principal, s) && Window(rule, s.request.at) == window && s.decision.allowed then 1 else 0
  }

  /** Allowed requests in the span of one window length that starts at `from`. */
  function AllowedDuring(rule: Rule, principal: string, from: int): Served -> int {
    (s: Served) =>
      if IsHit(rule, principal, s) && from <= s.request.at < from + rule.windowSeconds * 1000 && s.decision.allowed
      then 1 else 0
  }

  /** Everyone who uses the bucket uses the same rule. */
  ghost predicate OneRule(qs: seq<Request>, rule: Rule) {
    forall q <- qs :: q.rule.bucket == rule.bucket ==> q.rule == rule
  }

  // --- windows ------------------------------------------------------------------------------

  lemma DivisionBounds(a: int, d: int)
    requires d > 0
    ensures a / d * d <= a < (a / d + 1) * d
  {
  }

  lemma DivisionUnique(a: int, d: int, q: int)
    requires d > 0 && q * d <= a < (q + 1) * d
    ensures a / d == q
  {
    DivisionBounds(a, d);
    var p := a / d;
    if p < q { MulMonotone(p + 1, q, d); }
    if q < p { MulMonotone(q + 1, p, d); }
  }

  /** A window covers exactly its `windowSeconds` seconds. */
  lemma WindowBounds(rule: Rule, now: int, w: int)
    requires rule.Valid()
    ensures Window(rule, now) == w <==> w * rule.windowSeconds * 1000 <= now < (w + 1) * rule.windowSeconds * 1000
  {
    var s, d := NowSeconds(now), rule.windowSeconds;
    DivisionBounds(now, 1000);
    DivisionBounds(s, d);
    if w * d <= s < (w + 1) * d { DivisionUnique(s, d, w); }
  }

  /** Backing off as told takes between one second and a whole window, and lands in the next window. */
  lemma RetryLandsInNextWindow(rule: Rule, now: int)
    requires rule.Valid()
    ensures 1 <= RetryAfter(rule, now) <= rule.windowSeconds
    ensures Window(rule, now + RetryAfter(rule, now) * 1000) == Window(rule, now) + 1
    ensures Window(rule, now + (RetryAfter(rule, now) - 1) * 1000) == Window(rule, now)
  {
    var s, d, w := NowSeconds(now), rule.windowSeconds, Window(rule, now);
    var r := RetryAfter(rule, now);
    DivisionBounds(s, d);
    assert (w + 1) * d == w * d + d;
    assert (w + 2) * d == w * d + d + d;
    assert NowSeconds(now + r * 1000) == s + r;
    assert NowSeconds(now + (r - 1) * 1000) == s + r - 1;
    DivisionUnique(s + r, d, w + 1);
    DivisionUnique(s + r - 1, d, w);
  }

  // --- the bound ----------------------------------------------------------------------------

  /** The counter of a window holds its number of hits and outlives it. */
  ghost predicate SlotOk(log: Log, rule: Rule, principal: string, w: int)
    requires rule.Valid()
  {
    var hits := Total(log.served, HitIn(rule, principal, w));
    var slot := Slot(rule.bucket, principal, w);
    && hits >= 0
    && (slot in log.counters <==> hits > 0)
    && (slot in log.counters ==>
          && log.counters[slot].count == hits
          && log.counters[slot].expiresAt.Some?
          && log.counters[slot].expiresAt.value > (w + 1) * rule.windowSeconds * 1000)
    && Total(log.served, AllowedIn(rule, principal, w)) == Least(hits, rule.limit)
  }

  lemma SlotKept(log: Log, q: Request, rule: Rule, principal: string, w: int)
    requires rule.Valid() && q.rule.Valid() && SlotOk(log, rule, principal, w)
    requires q.rule.bucket == rule.bucket ==> q.rule == rule
    ensures SlotOk(ServeOne(log, q), rule, principal, w)
  {
    hide Window;
    var log' := ServeOne(log, q);
    var s := log'.served[|log.served|];
    TotalSnoc(log.served, s, HitIn(rule, principal, w));
    TotalSnoc(log.served, s, AllowedIn(rule, principal, w));
    WindowBounds(q.rule, q.at, Window(q.rule, q.at));
    LifeOutlastsWindow(q.rule, q.at);
  }

  /** Even the last moment of a window is inside the life its first hit gives the counter. */
  lemma LifeOutlastsWindow(rule: Rule, now: int)
    requires rule.Valid()
    ensures now + (rule.windowSeconds + 1) * 1000 > (Window(rule, now) + 1) * rule.windowSeconds * 1000
  {
    WindowBounds(rule, now, Window(rule, now));
    var w, d := Window(rule, now), rule.windowSeconds;
    assert (w + 1) * d * 1000 == w * d * 1000 + d * 1000;
  }

  lemma {:induction false} ServeKeeps(qs: seq<Request>, rule: Rule, principal: string, w: int)
    requires AllValid(qs) && OneRule(qs, rule) && rule.Valid()
    ensures SlotOk(Serve(qs), rule, principal, w)
    decreases |qs|
  {
    if qs != [] {
      hide SlotOk, ServeOne;
      var before := qs[..|qs| - 1];
      ServeKeeps(before, rule, principal, w);
      SlotKept(Serve(before), qs[|qs| - 1], rule, principal, w);
    }
  }

  /**
   * In every window exactly the first `limit` requests of a principal are allowed, never more, and
   * never fewer while there are requests.
   */
  lemma WindowBound(qs: seq<Request>, rule: Rule, principal: string, w: int)
    requires AllValid(qs) && OneRule(qs, rule) && rule.Valid()
    ensures Total(Serve(qs).served, AllowedIn(rule, principal, w))
      == Least(Total(Serve(qs).served, HitIn(rule, principal, w)), rule.limit)
  {
    ServeKeeps(qs, rule, principal, w);
  }

  /** A counter never expires inside its window: whenever it is hit again there, it is still live. */
  lemma {:induction false} NeverExpiresInsideWindow(qs: seq<Request>, rule: Rule, principal: string, now: int)
    requires AllValid(qs) && OneRule(qs, rule) && rule.Valid()
    ensures var slot := SlotOf(rule, principal, now);
      slot in Serve(qs).counters ==> Live(Serve(qs).counters[slot], now)
  {
    ServeKeeps(qs, rule, principal, Window(rule, now));
    WindowBounds(rule, now, Window(rule, now));
  }

  lemma {:induction false} ServedInOrder(qs: seq<Request>, k: nat)
    requires AllValid(qs) && k < |qs|
    ensures |Serve(qs).served| == |qs|
    ensures Serve(qs).served[..k] == Serve(qs[..k]).served
    ensures Serve(qs).served[k] == ServeOne(Serve(qs[..k]), qs[k]).served[k]
    decreases |qs|
  {
    hide ServeOne;
    var before := qs[..|qs| - 1];
    AppendsOne(Serve(before), qs[|qs| - 1]);
    if before != [] { ServedInOrder(before, if k < |before| then k else 0); }
    if k < |before| {
      assert before[..k] == qs[..k];
    } else {
      assert qs[..k] == before;
    }
  }

  lemma AppendsOne(log: Log, q: Request)
    requires q.rule.Valid()
    ensures |ServeOne(log, q).served| == |log.served| + 1 && ServeOne(log, q).served[..|log.served|] == log.served
  {
  }

  /** The back-off that leads into the next window, and not a second more. */
  predicate BacksOff(rule: Rule, now: int, seconds: int)
    requires rule.Valid()
  {
    && 1 <= seconds <= rule.windowSeconds
    && Window(rule, now + seconds * 1000) == Window(rule, now) + 1
    && Window(rule, now + (seconds - 1) * 1000) == Window(rule, now)
  }

  /** What the decision says, given how many requests its window has seen. */
  predicate Answers(rule: Rule, now: int, earlier: int, d: Decision)
    requires rule.Valid()
  {
    && (d.allowed <==> earlier < rule.limit)
    && d.remaining == (if earlier < rule.limit then rule.limit - earlier - 1 else 0)
    && BacksOff(rule, now, d.retryAfterSeconds)
  }

  /**
   * Every single decision: allowed exactly while fewer than `limit` requests of the principal came
   * before in its window, with what is left of the limit, and a back-off into the next window.
   */
  lemma DecisionMeaning(qs: seq<Request>, k: nat)
    requires AllValid(qs) && k < |qs| && OneRule(qs, qs[k].rule)
    ensures |Serve(qs).served| == |qs| && Serve(qs).served[k].request == qs[k]
    ensures var q := qs[k];
      var earlier := Total(Serve(qs).served[..k], HitIn(q.rule, q.principal, Window(q.rule, q.at)));
      Answers(q.rule, q.at, earlier, Serve(qs).served[k].decision)
  {
    hide Serve, Window, RetryAfter, BacksOff;
    var q := qs[k];
    ServedInOrder(qs, k);
    assert forall x <- qs[..k] :: x in qs;
    ServeKeeps(qs[..k], q.rule, q.principal, Window(q.rule, q.at));
    WindowBounds(q.rule, q.at, Window(q.rule, q.at));
    RetryBacksOff(q.rule, q.at);
    ServedInOrder(qs, 0);
    LengthServed(qs[..k]);
  }

  lemma RetryBacksOff(rule: Rule, now: int)
    requires rule.Valid()
    ensures BacksOff(rule, now, RetryAfter(rule, now))
  {
    RetryLandsInNextWindow(rule, now);
  }

  lemma LengthServed(qs: seq<Request>)
    requires AllValid(qs)
    ensures |Serve(qs).served| == |qs|
  {
    if qs != [] { ServedInOrder(qs, 0); }
  }

  function Sum(f: Served -> int, g: Served -> int): Served -> int { (s: Served) => f(s) + g(s) }

  /** Any span as long as a window, wherever it starts, lets at most twice the limit through. */
  lemma SpanBound(qs: seq<Request>, rule: Rule, principal: string, from: int)
    requires AllValid(qs) && OneRule(qs, rule) && rule.Valid()
    ensures Total(Serve(qs).served, AllowedDuring(rule, principal, from)) <= 2 * rule.limit
  {
    var w := Window(rule, from);
    var f, g := AllowedIn(rule, principal, w), AllowedIn(rule, principal, w + 1);
    var served := Serve(qs).served;
    WindowBound(qs, rule, principal, w);
    WindowBound(qs, rule, principal, w + 1);
    forall s | s in served ensures AllowedDuring(rule, principal, from)(s) <= Sum(f, g)(s) {
      SpanTouchesTwo(rule, from, s.request.at);
    }
    TotalBounds(served, AllowedDuring(rule, principal, from), Sum(f, g));
    TotalSum(served, f, g, Sum(f, g));
  }

  lemma SpanTouchesTwo(rule: Rule, from: int, at: int)
    requires rule.Valid()
    ensures from <= at < from + rule.windowSeconds * 1000 ==>
      Window(rule, at) == Window(rule, from) || Window(rule, at) == Window(rule, from) + 1
  {
    var w, d := Window(rule, from), rule.windowSeconds;
    WindowBounds(rule, from, w);
    WindowBounds(rule, at, w);
    WindowBounds(rule, at, w + 1);
    assert (w + 2) * d * 1000 == (w + 1) * d * 1000 + d * 1000;
    assert (w + 1 + 1) * d == (w + 2) * d;
  }

  lemma ServeTwo(q1: Request, q2: Request)
    requires q1.rule.Valid() && q2.rule.Valid()
    ensures AllValid([q1, q2]) && Serve([q1, q2]) == ServeOne(ServeOne(Log(map[], []), q1), q2)
  {
    hide ServeOne;
    assert [q1, q2][..1] == [q1] && [q1][..0] == [];
    assert Serve([q1]) == ServeOne(Serve([]), q1);
  }

  /** The first request of a principal in a window. */
  lemma FirstHitAllowed(log: Log, q: Request)
    requires q.rule.Valid() && SlotOf(q.rule, q.principal, q.at) !in log.counters && q.rule.limit > 0
    ensures var s := Served(q, Decision(true, q.rule.limit - 1, RetryAfter(q.rule, q.at)));
      ServeOne(log, q).served == log.served + [s]
    ensures forall k :: k in ServeOne(log, q).counters <==> k in log.counters || k == SlotOf(q.rule, q.principal, q.at)
  {
  }

  /** The factor two is reached: two requests a moment apart, on both sides of a boundary. */
  lemma SpanBoundIsTight()
    ensures var rule := Rule("b", 1, 1); var qs := [Request(rule, "p", 999), Request(rule, "p", 1000)];
      AllValid(qs) && Total(Serve(qs).served, AllowedDuring(rule, "p", 999)) == 2 * rule.limit
  {
    hide Serve, ServeOne;
    var rule := Rule("b", 1, 1);
    var q1, q2 := Request(rule, "p", 999), Request(rule, "p", 1000);
    var empty := Log(map[], []);
    ServeTwo(q1, q2);
    FirstHitAllowed(empty, q1);
    FirstHitAllowed(ServeOne(empty, q1), q2);
    var s1, s2 := Served(q1, Decision(true, 0, RetryAfter(rule, 999))), Served(q2, Decision(true, 0, RetryAfter(rule, 1000)));
    var f := AllowedDuring(rule, "p", 999);
    TotalSnoc([], s1, f);
    TotalSnoc([] + [s1], s2, f);
  }

  // --- the service --------------------------------------------------------------------------

  class RateLimiterService {
    var counters: Counters

    constructor ()
      ensures counters == map[]
    {
      counters := map[];
    }

    /** One atomic increment; an expired key is gone, and a new one has no expiry yet. */
    method Incr(slot: Slot, now: int) returns (count: nat)
      modifies this
      ensures slot in counters && counters[slot].count == count
      ensures var live := slot in old(counters) && Live(old(counters)[slot], now);
        counters == old(counters)[slot := if live then Counter(old(counters)[slot].count + 1, old(counters)[slot].expiresAt)
                                          else Counter(1, None)]
    {
      if slot in counters && Live(counters[slot], now) {
        counters := counters[slot := counters[slot].(count := counters[slot].count + 1)];
      } else {
        counters := counters[slot := Counter(1, None)];
      }
      return counters[slot].count;
    }

    method Expire(slot: Slot, now: int, seconds: int)
      requires slot in counters
      modifies this
      ensures counters == old(counters)[slot := old(counters)[slot].(expiresAt := Some(now + seconds * 1000))]
    {
      counters := counters[slot := counters[slot].(expiresAt := Some(now + seconds * 1000))];
    }

    /** Every stored counter has been hit. */
    ghost predicate Valid()
      reads this
    {
      forall k <- counters :: counters[k].count > 0
    }

    method IncrementWithExpiry(slot: Slot, now: int, windowSeconds: int) returns (count: nat)
      requires Valid()
      modifies this
      ensures Valid() && counters == old(counters)[slot := Counted(old(counters), slot, now, windowSeconds)]
      ensures count == counters[slot].count
    {
      count := Incr(slot, now);
      if count == 1 { Expire(slot, now, windowSeconds + 1); }
    }

    /** One request: exactly the step of a run, to the counters and in the decision. */
    method Check(rule: Rule, principal: string, now: int) returns (d: Decision)
      requires Valid() && rule.Valid()
      modifies this
      ensures Valid()
      ensures ServedAs(old(counters), Request(rule, principal, now), counters, d)
    {
      var nowSeconds := now / 1000;
      var window := nowSeconds / rule.windowSeconds;
      var retryAfterSeconds := (window + 1) * rule.windowSeconds - nowSeconds;
      var count := IncrementWithExpiry(Slot(rule.bucket, principal, window), now, rule.windowSeconds);
      if count > rule.limit { return Decision(false, 0, retryAfterSeconds); }
      return Decision(true, rule.limit - count, retryAfterSeconds);
    }
  }
}
