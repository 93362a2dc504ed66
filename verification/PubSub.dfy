/**
 * In-process publish/subscribe: each subscription is an async iterator with a queue, at most one
 * waiting consumer, and a closed flag. Subscribers, publishers and consumers act in any order.
 */
module PubSub {
  import opened Prelude

  type Payload = string

  /** A payload handed to the consumer whose call of `next` was number `ticket`. */
  datatype Delivery = Delivery(ticket: nat, payload: Payload)

  /**
   * `pending` is the call of `next` that waits. `issued`, `delivered` and `finished` are history:
   * calls of `next` so far, payloads handed out, and calls answered with the end of the iteration.
   * `since` and `until` are the positions in the publication log of subscribing and detaching.
   */
  datatype Sub = Sub(
    trigger: string, queue: seq<Payload>, pending: Option<nat>, closed: bool,
    issued: nat, delivered: seq<Delivery>, finished: set<nat>, since: nat, until: nat)

  datatype Post = Post(trigger: string, payload: Payload)

  datatype Bus = Bus(subs: seq<Sub>, channels: map<string, set<nat>>, log: seq<Post>)

  const Idle := Bus([], map[], [])

  datatype Step =
    | Publish(trigger: string, payload: Payload)
    | Subscribe(trigger: string)
    | CallNext(sub: nat)
    | CallReturn(sub: nat)

  /** The listener: a closed one ignores, a waiting consumer takes, otherwise the payload queues. */
  function Hear(s: Sub, payload: Payload): Sub {
    if s.closed then s
    else if s.pending.Some? then
      s.(pending := None, delivered := s.delivered + [Delivery(s.pending.value, payload)])
    else s.(queue := s.queue + [payload])
  }

  function Listeners(b: Bus, trigger: string): set<nat> {
    if trigger in b.channels then b.channels[trigger] else {}
  }

  /** The payload reaches the first `n` subscriptions that listen. */
  function Spread(subs: seq<Sub>, listeners: set<nat>, payload: Payload): (r: seq<Sub>)
    ensures |r| == |subs|
  {
    seq(|subs|, i requires 0 <= i < |subs| => if i in listeners then Hear(subs[i], payload) else subs[i])
  }

  function DoPublish(b: Bus, trigger: string, payload: Payload): Bus {
    Bus(Spread(b.subs, Listeners(b, trigger), payload), b.channels, b.log + [Post(trigger, payload)])
  }

  function DoSubscribe(b: Bus, trigger: string): Bus {
    Bus(b.subs + [Sub(trigger, [], None, false, 0, [], {}, |b.log|, 0)],
        b.channels[trigger := Listeners(b, trigger) + {|b.subs|}], b.log)
  }

  /** A queued payload comes first, then the end if closed, else the call waits. */
  function NextOf(s: Sub): Sub {
    var s1 := s.(issued := s.issued + 1);
    if s.queue != [] then s1.(queue := s.queue[1..], delivered := s.delivered + [Delivery(s.issued, s.queue[0])])
    else if s.closed then s1.(finished := s.finished + {s.issued})
    else s1.(pending := Some(s.issued))
  }

  function DoReturn(b: Bus, i: nat): Bus
    requires i < |b.subs|
  {
    var s := b.subs[i];
    var until := if s.closed then s.until else |b.log|;
    Bus(b.subs[i := s.(closed := true, until := until)],
        if s.trigger in b.channels then b.channels[s.trigger := b.channels[s.trigger] - {i}] else b.channels, b.log)
  }

  function Next(b: Bus, step: Step): Bus {
    match step
    case Publish(trigger, payload) => DoPublish(b, trigger, payload)
    case Subscribe(trigger) => DoSubscribe(b, trigger)
    case CallNext(i) => if i < |b.subs| then b.(subs := b.subs[i := NextOf(b.subs[i])]) else b
    case CallReturn(i) => if i < |b.subs| then DoReturn(b, i) else b
  }

  function Run(b: Bus, steps: seq<Step>): Bus
    decreases |steps|
  {
    if steps == [] then b else Run(Next(b, steps[0]), steps[1..])
  }

  // --- what a subscriber should get ---------------------------------------------------------

  /** The payloads published on a trigger, in order. */
  function On(log: seq<Post>, trigger: string): seq<Payload>
    decreases |log|
  {
    if log == [] then []
    else
      var last := log[|log| - 1];
      On(log[..|log| - 1], trigger) + if last.trigger == trigger then [last.payload] else []
  }

  function Payloads(ds: seq<Delivery>): (ps: seq<Payload>)
    ensures |ps| == |ds|
  {
    seq(|ds|, i requires 0 <= i < |ds| => ds[i].payload)
  }

  function End(s: Sub, n: nat): nat { if s.closed then s.until else n }

  /** Everything published on the subscription's trigger while it was attached. */
  function Due(s: Sub, log: seq<Post>): seq<Payload>
    requires s.since <= End(s, |log|) <= |log|
  {
    On(log[s.since..End(s, |log|)], s.trigger)
  }

  ghost predicate SubOk(s: Sub, log: seq<Post>) {
    && s.since <= End(s, |log|) <= |log|
    && Payloads(s.delivered) + s.queue == Due(s, log)
    && (s.pending.Some? ==> s.queue == [])
  }

  /** A subscription listens on its own trigger, and only while it is open. */
  ghost predicate Attached(b: Bus) { forall i: nat, t: string :: AttachedAt(b, i, t) }

  predicate AttachedAt(b: Bus, i: nat, t: string) {
    i in Listeners(b, t) <==> i < |b.subs| && b.subs[i].trigger == t && !b.subs[i].closed
  }

  ghost predicate BusOk(b: Bus) { Attached(b) && forall s <- b.subs :: SubOk(s, b.log) }

  lemma PayloadsSnoc(ds: seq<Delivery>, d: Delivery)
    ensures Payloads(ds + [d]) == Payloads(ds) + [d.payload]
  {
  }

  /** A publication adds to what is due exactly where the listener is called. */
  lemma DueGrows(s: Sub, log: seq<Post>, p: Post)
    requires s.since <= End(s, |log|) <= |log|
    ensures Due(s, log + [p]) == Due(s, log) + if !s.closed && s.trigger == p.trigger then [p.payload] else []
  {
    if s.closed {
      assert (log + [p])[s.since..s.until] == log[s.since..s.until];
    } else {
      var now := (log + [p])[s.since..|log| + 1];
      assert now[..|now| - 1] == log[s.since..|log|];
    }
  }

  lemma HearKeeps(s: Sub, log: seq<Post>, p: Post)
    requires SubOk(s, log)
    ensures SubOk(if !s.closed && s.trigger == p.trigger then Hear(s, p.payload) else s, log + [p])
  {
    DueGrows(s, log, p);
    if !s.closed && s.trigger == p.trigger && s.pending.Some? {
      PayloadsSnoc(s.delivered, Delivery(s.pending.value, p.payload));
      assert Payloads(s.delivered) + [] == Payloads(s.delivered);
    }
  }

  lemma PublishKeeps(b: Bus, trigger: string, payload: Payload)
    requires BusOk(b)
    ensures BusOk(DoPublish(b, trigger, payload))
  {
    hide SubOk;
    var b' := DoPublish(b, trigger, payload);
    forall i | 0 <= i < |b'.subs| ensures SubOk(b'.subs[i], b'.log) {
      assert b.subs[i] in b.subs && AttachedAt(b, i, trigger);
      HearKeeps(b.subs[i], b.log, Post(trigger, payload));
    }
    forall i: nat, t: string ensures AttachedAt(b', i, t) {
      assert AttachedAt(b, i, t);
    }
  }

  lemma NextKeeps(s: Sub, log: seq<Post>)
    requires SubOk(s, log)
    ensures SubOk(NextOf(s), log)
  {
    if s.queue != [] {
      PayloadsSnoc(s.delivered, Delivery(s.issued, s.queue[0]));
      assert Payloads(s.delivered) + s.queue == Payloads(s.delivered) + [s.queue[0]] + s.queue[1..];
    }
  }

  lemma ReturnKeeps(b: Bus, i: nat)
    requires BusOk(b) && i < |b.subs|
    ensures BusOk(DoReturn(b, i))
  {
    var s := b.subs[i];
    var b' := DoReturn(b, i);
    assert SubOk(s, b.log);
    assert SubOk(b'.subs[i], b'.log);
    forall j: nat, t: string ensures AttachedAt(b', j, t) {
      assert AttachedAt(b, j, t);
    }
  }

  lemma SubscribeKeeps(b: Bus, trigger: string)
    requires BusOk(b)
    ensures BusOk(DoSubscribe(b, trigger))
  {
    var b' := DoSubscribe(b, trigger);
    assert SubOk(b'.subs[|b.subs|], b'.log);
    forall j: nat, t: string ensures AttachedAt(b', j, t) {
      assert AttachedAt(b, j, t);
    }
  }

  lemma StepKeeps(b: Bus, step: Step)
    requires BusOk(b)
    ensures BusOk(Next(b, step))
  {
    match step
    case Publish(trigger, payload) => PublishKeeps(b, trigger, payload);
    case Subscribe(trigger) => SubscribeKeeps(b, trigger);
    case CallReturn(i) => if i < |b.subs| { ReturnKeeps(b, i); }
    case CallNext(i) =>
      if i < |b.subs| {
        NextKeeps(b.subs[i], b.log);
        forall j: nat, t: string ensures AttachedAt(Next(b, step), j, t) {
          assert AttachedAt(b, j, t);
        }
      }
  }

  lemma {:induction false} RunKeeps(b: Bus, steps: seq<Step>)
    requires BusOk(b)
    ensures BusOk(Run(b, steps))
    decreases |steps|
  {
    hide BusOk, Next;
    if steps != [] {
      StepKeeps(b, steps[0]);
      RunKeeps(Next(b, steps[0]), steps[1..]);
    }
  }

  /**
   * For every run, what a subscriber has been given followed by what waits in its queue is exactly
   * what was published on its trigger between subscribing and detaching, in order; and a consumer
   * only ever waits on an empty queue.
   */
  lemma Fifo(steps: seq<Step>, i: nat)
    requires i < |Run(Idle, steps).subs|
    ensures var b := Run(Idle, steps); var s := b.subs[i];
      && s.since <= End(s, |b.log|) <= |b.log|
      && Payloads(s.delivered) + s.queue == Due(s, b.log)
      && (s.pending.Some? ==> s.queue == [])
  {
    RunKeeps(Idle, steps);
    assert SubOk(Run(Idle, steps).subs[i], Run(Idle, steps).log);
  }

  /** The end is only announced on a closed subscription that has nothing left. */
  predicate Drained(s: Sub) { s.finished != {} ==> s.closed && s.queue == [] }

  lemma {:induction false} DrainedRun(b: Bus, steps: seq<Step>)
    requires forall s <- b.subs :: Drained(s)
    ensures forall s <- Run(b, steps).subs :: Drained(s)
    decreases |steps|
  {
    hide Drained;
    if steps != [] {
      DrainedStep(b, steps[0]);
      DrainedRun(Next(b, steps[0]), steps[1..]);
    }
  }

  lemma DrainedStep(b: Bus, step: Step)
    requires forall s <- b.subs :: Drained(s)
    ensures forall s <- Next(b, step).subs :: Drained(s)
  {
    forall i: nat | i < |Next(b, step).subs| ensures Drained(Next(b, step).subs[i]) {
      if i < |b.subs| { assert Drained(b.subs[i]); }
    }
  }

  /**
   * What a call of `next` gets, in every reachable state: the first due payload not yet handed out;
   * when there is none, the end if the subscription is closed, and otherwise it waits.
   */
  lemma NextMeaning(steps: seq<Step>, i: nat)
    requires i < |Run(Idle, steps).subs|
    ensures var b := Run(Idle, steps); var s := b.subs[i]; var s' := Next(b, CallNext(i)).subs[i];
      && s.since <= End(s, |b.log|) <= |b.log|
      && var due := Due(s, b.log); var n := |s.delivered|;
        && n <= |due|
        && (n < |due| ==> s' == s.(issued := s.issued + 1, queue := s'.queue,
                                   delivered := s.delivered + [Delivery(s.issued, due[n])]))
        && (n == |due| && s.closed ==> s' == s.(issued := s.issued + 1, finished := s.finished + {s.issued}))
        && (n == |due| && !s.closed ==> s' == s.(issued := s.issued + 1, pending := Some(s.issued)))
  {
    hide Run, Due;
    var b := Run(Idle, steps);
    var s := b.subs[i];
    Fifo(steps, i);
    assert Due(s, b.log) == Payloads(s.delivered) + s.queue;
    if s.queue != [] { assert Due(s, b.log)[|s.delivered|] == s.queue[0]; }
  }

  /** The iteration ends only after everything due has been handed out. */
  lemma EndComesLast(steps: seq<Step>, i: nat)
    requires i < |Run(Idle, steps).subs| && Run(Idle, steps).subs[i].finished != {}
    ensures var b := Run(Idle, steps); var s := b.subs[i];
      && s.closed && s.since <= s.until <= |b.log|
      && Payloads(s.delivered) == On(b.log[s.since..s.until], s.trigger)
  {
    hide Run;
    var s := Run(Idle, steps).subs[i];
    Fifo(steps, i);
    DrainedRun(Idle, steps);
    assert s in Run(Idle, steps).subs;
    assert Payloads(s.delivered) + [] == Payloads(s.delivered);
  }

  /** The payload goes to the waiting consumer at once, or to the end of the queue. */
  predicate Heard(s: Sub, payload: Payload, s': Sub) {
    match s.pending
    case Some(ticket) => s' == s.(pending := None, delivered := s.delivered + [Delivery(ticket, payload)])
    case None => s' == s.(queue := s.queue + [payload])
  }

  /** A publication is logged and heard by exactly the open subscriptions on its trigger. */
  lemma PublishMeaning(b: Bus, trigger: string, payload: Payload)
    requires BusOk(b)
    ensures var b' := Next(b, Publish(trigger, payload));
      && b'.log == b.log + [Post(trigger, payload)] && |b'.subs| == |b.subs|
      && forall i | 0 <= i < |b.subs| ::
           if b.subs[i].trigger == trigger && !b.subs[i].closed then Heard(b.subs[i], payload, b'.subs[i])
           else b'.subs[i] == b.subs[i]
  {
    hide Hear, Heard, SubOk;
    var b' := Next(b, Publish(trigger, payload));
    forall i | 0 <= i < |b.subs|
      ensures if b.subs[i].trigger == trigger && !b.subs[i].closed then Heard(b.subs[i], payload, b'.subs[i])
        else b'.subs[i] == b.subs[i]
    {
      assert AttachedAt(b, i, trigger);
      HearingIsHeard(b.subs[i], payload);
    }
  }

  lemma HearingIsHeard(s: Sub, payload: Payload)
    ensures !s.closed ==> Heard(s, payload, Hear(s, payload))
  {
  }

  /** Subscribing adds an open, empty subscription from here on; returning closes one from here on. */
  lemma AttachMeaning(b: Bus, trigger: string, i: nat)
    ensures var b' := Next(b, Subscribe(trigger));
      && b'.log == b.log && |b'.subs| == |b.subs| + 1 && b'.subs[..|b.subs|] == b.subs
      && var s := b'.subs[|b.subs|];
        s.trigger == trigger && !s.closed && s.queue == [] && s.delivered == [] && s.since == |b.log|
    ensures i < |b.subs| && !b.subs[i].closed ==>
      var b' := Next(b, CallReturn(i));
      && b'.log == b.log && b'.subs == b.subs[i := b.subs[i].(closed := true, until := |b.log|)]
  {
  }

  // --- which call gets which payload --------------------------------------------------------

  /** Each consumer calls `next` only when its previous call has been answered. */
  predicate Patient(b: Bus, step: Step) {
    step.CallNext? && step.sub < |b.subs| ==> b.subs[step.sub].pending.None?
  }

  predicate AllPatient(b: Bus, steps: seq<Step>)
    decreases |steps|
  {
    steps != [] ==> Patient(b, steps[0]) && AllPatient(Next(b, steps[0]), steps[1..])
  }

  /** Payload number k went to call number k; every call is answered but the one that waits. */
  ghost predicate TicketsOk(s: Sub) {
    && (forall k | 0 <= k < |s.delivered| :: s.delivered[k].ticket == k)
    && (s.finished != {} ==> s.closed && s.queue == [])
    && (s.pending.Some? ==> s.pending.value == |s.delivered| && s.issued == |s.delivered| + 1 && s.finished == {})
    && (s.pending.None? ==> |s.delivered| <= s.issued)
    && (s.pending.None? ==> forall t: nat :: t in s.finished <==> |s.delivered| <= t < s.issued)
  }

  lemma TicketsHear(s: Sub, payload: Payload)
    requires TicketsOk(s)
    ensures TicketsOk(Hear(s, payload))
  {
  }

  lemma TicketsNext(s: Sub)
    requires TicketsOk(s) && s.pending.None?
    ensures TicketsOk(NextOf(s))
  {
    if |s.delivered| < s.issued {
      assert |s.delivered| in s.finished;
    }
  }

  lemma TicketsStep(b: Bus, step: Step)
    requires (forall s <- b.subs :: TicketsOk(s)) && Patient(b, step)
    ensures forall s <- Next(b, step).subs :: TicketsOk(s)
  {
    hide TicketsOk;
    var b' := Next(b, step);
    forall i | 0 <= i < |b'.subs| ensures TicketsOk(b'.subs[i]) {
      TicketsFresh(step);
      if i < |b.subs| {
        assert b.subs[i] in b.subs;
        if step.Publish? { TicketsHear(b.subs[i], step.payload); }
        if step == CallNext(i) { TicketsNext(b.subs[i]); }
        if step == CallReturn(i) { TicketsClose(b.subs[i], b'.subs[i].until); }
      } else {
        TicketsOpen(step.trigger, |b.log|);
      }
    }
  }

  lemma TicketsFresh(step: Step)
    ensures step.Publish? || step.Subscribe? || step.CallNext? || step.CallReturn?
  {
  }

  lemma TicketsOpen(trigger: string, since: nat)
    ensures TicketsOk(Sub(trigger, [], None, false, 0, [], {}, since, 0))
  {
  }

  lemma TicketsClose(s: Sub, until: nat)
    requires TicketsOk(s)
    ensures TicketsOk(s.(closed := true, until := until))
  {
  }

  lemma {:induction false} TicketsRun(b: Bus, steps: seq<Step>)
    requires (forall s <- b.subs :: TicketsOk(s)) && AllPatient(b, steps)
    ensures forall s <- Run(b, steps).subs :: TicketsOk(s)
    decreases |steps|
  {
    hide TicketsOk, Next, Patient;
    if steps != [] {
      TicketsStep(b, steps[0]);
      TicketsRun(Next(b, steps[0]), steps[1..]);
    }
  }

  /** With patient consumers, the k-th call of `next` gets the k-th payload due to the subscription. */
  lemma CallGetsItsPayload(steps: seq<Step>, i: nat, k: nat)
    requires AllPatient(Idle, steps) && i < |Run(Idle, steps).subs| && k < |Run(Idle, steps).subs[i].delivered|
    ensures var b := Run(Idle, steps); var s := b.subs[i];
      && s.since <= End(s, |b.log|) <= |b.log| && k < |Due(s, b.log)|
      && s.delivered[k] == Delivery(k, Due(s, b.log)[k])
  {
    hide Run, Due;
    var b := Run(Idle, steps);
    var s := b.subs[i];
    Fifo(steps, i);
    TicketsRun(Idle, steps);
    assert s in b.subs;
    assert Due(s, b.log)[k] == Payloads(s.delivered)[k];
  }

  // --- calls that are never answered --------------------------------------------------------

  predicate Answered(s: Sub, ticket: nat) { ticket in s.finished || exists d <- s.delivered :: d.ticket == ticket }

  /** The call can still be answered: it is the one that waits, on an open subscription. */
  predicate Waiting(s: Sub, ticket: nat) { s.pending == Some(ticket) && !s.closed }

  ghost predicate Stranded(b: Bus, i: nat, ticket: nat) {
    && i < |b.subs| && ticket < b.subs[i].issued
    && !Answered(b.subs[i], ticket) && !Waiting(b.subs[i], ticket)
  }

  lemma HearStrands(s: Sub, payload: Payload, ticket: nat)
    requires ticket < s.issued && !Answered(s, ticket) && !Waiting(s, ticket)
    ensures ticket < Hear(s, payload).issued && !Answered(Hear(s, payload), ticket) && !Waiting(Hear(s, payload), ticket)
  {
  }

  lemma NextStrands(s: Sub, ticket: nat)
    requires ticket < s.issued && !Answered(s, ticket) && !Waiting(s, ticket)
    ensures ticket < NextOf(s).issued && !Answered(NextOf(s), ticket) && !Waiting(NextOf(s), ticket)
  {
  }

  lemma StrandedStays(b: Bus, step: Step, i: nat, ticket: nat)
    requires Stranded(b, i, ticket)
    ensures Stranded(Next(b, step), i, ticket)
  {
    hide Answered, Waiting;
    var s := b.subs[i];
    if step.Publish? { HearStrands(s, step.payload, ticket); }
    if step == CallNext(i) { NextStrands(s, ticket); }
    if step == CallReturn(i) { CloseStrands(s, Next(b, step).subs[i].until, ticket); }
  }

  lemma CloseStrands(s: Sub, until: nat, ticket: nat)
    requires !Answered(s, ticket)
    ensures !Answered(s.(closed := true, until := until), ticket) && !Waiting(s.(closed := true, until := until), ticket)
  {
  }

  lemma {:induction false} StrandedForever(b: Bus, steps: seq<Step>, i: nat, ticket: nat)
    requires Stranded(b, i, ticket)
    ensures Stranded(Run(b, steps), i, ticket)
    decreases |steps|
  {
    hide Stranded, Next;
    if steps != [] {
      StrandedStays(b, steps[0], i, ticket);
      StrandedForever(Next(b, steps[0]), steps[1..], i, ticket);
    }
  }

  /**
   * A call that waits is stranded for good exactly by the consumer's own doing: by calling `next`
   * again, or by returning, before it is answered. No other step strands it.
   */
  lemma StrandedIff(b: Bus, step: Step, i: nat, ticket: nat)
    requires BusOk(b) && i < |b.subs| && ticket < b.subs[i].issued
    requires !Answered(b.subs[i], ticket) && Waiting(b.subs[i], ticket)
    ensures Stranded(Next(b, step), i, ticket) <==> step == CallNext(i) || step == CallReturn(i)
  {
    var s := b.subs[i];
    assert SubOk(s, b.log);
    assert s in b.subs;
    if step.Publish? && i in Listeners(b, step.trigger) {
      var d := Delivery(ticket, step.payload);
      assert Hear(s, step.payload).delivered == s.delivered + [d];
      assert d in Hear(s, step.payload).delivered;
    }
  }

  // --- the service in the form the source has -----------------------------------------------

  class PubSubService {
    var subs: seq<Sub>
    var channels: map<string, set<nat>>
    var log: seq<Post>  // history of publications

    function State(): Bus
      reads this
    {
      Bus(subs, channels, log)
    }

    constructor ()
      ensures State() == Idle
    {
      subs, channels, log := [], map[], [];
    }

    /** Calls every listener of the trigger once; the order among subscribers does not matter. */
    method Publish(trigger: string, payload: Payload)
      requires BusOk(State())
      modifies this
      ensures State() == Next(old(State()), Step.Publish(trigger, payload)) && BusOk(State())
    {
      ghost var before := subs;
      PublishKeeps(State(), trigger, payload);
      if trigger in channels {
        var todo := channels[trigger];
        ghost var done: set<nat> := {};
        while todo != {}
          invariant channels == old(channels) && log == old(log)
          invariant todo + done == channels[trigger] && todo !! done
          invariant subs == Spread(before, done, payload)
          decreases todo
        {
          var i: nat :| i in todo;
          assert AttachedAt(old(State()), i, trigger);
          subs := subs[i := Hear(subs[i], payload)];
          todo := todo - {i};
          done := done + {i};
        }
        assert done == channels[trigger];
      } else {
        assert subs == Spread(before, {}, payload);
      }
      log := log + [Post(trigger, payload)];
    }

    method AsyncIterator(trigger: string) returns (i: nat)
      requires BusOk(State())
      modifies this
      ensures State() == Next(old(State()), Subscribe(trigger)) && BusOk(State()) && i == |old(subs)|
    {
      SubscribeKeeps(State(), trigger);
      i := |subs|;
      subs := subs + [Sub(trigger, [], None, false, 0, [], {}, |log|, 0)];
      if trigger !in channels { channels := channels[trigger := {}]; }
      channels := channels[trigger := channels[trigger] + {i}];
    }

    /** Some(payload) or the end at once, or nothing yet when the call has to wait. */
    method NextCall(i: nat)
      requires BusOk(State()) && i < |subs|
      modifies this
      ensures State() == Next(old(State()), CallNext(i)) && BusOk(State())
    {
      StepKeeps(State(), CallNext(i));
      var s := subs[i];
      if |s.queue| > 0 {
        var head := s.queue[0];
        s := s.(queue := s.queue[1..], delivered := s.delivered + [Delivery(s.issued, head)]);
      } else if s.closed {
        s := s.(finished := s.finished + {s.issued});
      } else {
        s := s.(pending := Some(s.issued));
      }
      subs := subs[i := s.(issued := s.issued + 1)];
    }

    method ReturnCall(i: nat)
      requires BusOk(State()) && i < |subs|
      modifies this
      ensures State() == Next(old(State()), CallReturn(i)) && BusOk(State())
    {
      StepKeeps(State(), CallReturn(i));
      var s := subs[i];
      subs := subs[i := s.(closed := true, until := if s.closed then s.until else |log|)];
      if s.trigger in channels { channels := channels[s.trigger := channels[s.trigger] - {i}]; }
    }
  }
}
