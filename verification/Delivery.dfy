/**
 * Outbox, queue and worker as a concurrent protocol. Any number of dispatchers and workers take
 * steps in any order; a process may crash between any two of them; a job may be delivered again
 * while an earlier delivery is still running. A step that is not enabled changes nothing.
 */
module Delivery {
  import opened Prelude

  /** A Redis marker: one handler, one event. */
  datatype Key = Key(handler: Id, event: Id)

  /** Handler names per event type, in registration order. */
  type Registry = map<string, seq<Id>>

  function HandlersFor(reg: Registry, eventType: string): seq<Id> {
    if eventType in reg then reg[eventType] else []
  }

  /** A relay run: the batch read, the row it is at, and whether that row is already in the queue. */
  datatype Relay = Relay(pending: seq<Id>, at: nat, added: bool)

  datatype Phase = Claiming | Handling | Unclaiming

  /** A delivery attempt: the event, the handler it is at, and where it is with that handler. */
  datatype Attempt = Attempt(event: Id, at: nat, phase: Phase)

  /** `enqueued` and `effects` are history: every job ever added, every handler success in order. */
  datatype Sys = Sys(
    rows: map<Id, string>,
    marked: set<Id>,
    queue: set<Id>,
    enqueued: set<Id>,
    claims: set<Key>,
    effects: seq<Key>,
    relays: map<nat, Relay>,
    workers: map<nat, Attempt>)

  const Start := Sys(map[], {}, {}, {}, {}, [], map[], map[])

  datatype Step =
    | WriteRow(id: Id, eventType: string)
    | Poll(relay: nat, batch: seq<Id>)
    | AddJob(relay: nat)
    | MarkDispatched(relay: nat)
    | RelayStops(relay: nat)
    | Deliver(worker: nat, event: Id)
    | ClaimNext(worker: nat)
    | HandlerSucceeds(worker: nat)
    | HandlerThrows(worker: nat)
    | Unclaim(worker: nat)
    | CompleteJob(worker: nat)
    | WorkerCrashes(worker: nat)

  function HandlersOf(reg: Registry, s: Sys, event: Id): seq<Id> {
    if event in s.rows then HandlersFor(reg, s.rows[event]) else []
  }

  predicate AtHandler(reg: Registry, s: Sys, w: nat) {
    w in s.workers && s.workers[w].at < |HandlersOf(reg, s, s.workers[w].event)|
  }

  function KeyAt(reg: Registry, s: Sys, w: nat): Key
    requires AtHandler(reg, s, w)
  {
    Key(HandlersOf(reg, s, s.workers[w].event)[s.workers[w].at], s.workers[w].event)
  }

  predicate InPhase(reg: Registry, s: Sys, w: nat, p: Phase) { AtHandler(reg, s, w) && s.workers[w].phase == p }

  function DoPoll(s: Sys, r: nat, batch: seq<Id>): Sys {
    if r in s.relays || exists e <- batch :: e !in s.rows || e in s.marked then s
    else s.(relays := s.relays[r := Relay(batch, 0, false)])
  }

  /** Adding a job under an id that is already queued is ignored. */
  function DoAddJob(s: Sys, r: nat): Sys {
    if r !in s.relays || s.relays[r].added || s.relays[r].at >= |s.relays[r].pending| then s
    else
      var relay := s.relays[r];
      var e := relay.pending[relay.at];
      s.(queue := s.queue + {e}, enqueued := s.enqueued + {e}, relays := s.relays[r := relay.(added := true)])
  }

  function DoMark(s: Sys, r: nat): Sys {
    if r !in s.relays || !s.relays[r].added || s.relays[r].at >= |s.relays[r].pending| then s
    else
      var relay := s.relays[r];
      s.(marked := s.marked + {relay.pending[relay.at]},
         relays := s.relays[r := Relay(relay.pending, relay.at + 1, false)])
  }

  function DoDeliver(s: Sys, w: nat, event: Id): Sys {
    if w in s.workers || event !in s.queue then s
    else s.(workers := s.workers[w := Attempt(event, 0, Claiming)])
  }

  /** Set-if-absent: a key that exists means another delivery has it, and the handler is skipped. */
  function DoClaim(reg: Registry, s: Sys, w: nat): Sys {
    if !InPhase(reg, s, w, Claiming) then s
    else
      var a := s.workers[w];
      var key := KeyAt(reg, s, w);
      if key in s.claims then s.(workers := s.workers[w := a.(at := a.at + 1)])
      else s.(claims := s.claims + {key}, workers := s.workers[w := a.(phase := Handling)])
  }

  function DoSucceed(reg: Registry, s: Sys, w: nat): Sys {
    if !InPhase(reg, s, w, Handling) then s
    else
      var a := s.workers[w];
      s.(effects := s.effects + [KeyAt(reg, s, w)],
         workers := s.workers[w := Attempt(a.event, a.at + 1, Claiming)])
  }

  function DoThrow(reg: Registry, s: Sys, w: nat): Sys {
    if !InPhase(reg, s, w, Handling) then s
    else s.(workers := s.workers[w := s.workers[w].(phase := Unclaiming)])
  }

  /** The claim is given back and the attempt fails; the job stays for a retry. */
  function DoUnclaim(reg: Registry, s: Sys, w: nat): Sys {
    if !InPhase(reg, s, w, Unclaiming) then s
    else s.(claims := s.claims - {KeyAt(reg, s, w)}, workers := s.workers - {w})
  }

  /** An attempt past its last handler returns, and the completed job is removed. */
  function DoComplete(reg: Registry, s: Sys, w: nat): Sys {
    if w !in s.workers || AtHandler(reg, s, w) then s
    else s.(queue := s.queue - {s.workers[w].event}, workers := s.workers - {w})
  }

  function Next(reg: Registry, s: Sys, step: Step): Sys {
    match step
    case WriteRow(id, eventType) => if id in s.rows then s else s.(rows := s.rows[id := eventType])
    case Poll(r, batch) => DoPoll(s, r, batch)
    case AddJob(r) => DoAddJob(s, r)
    case MarkDispatched(r) => DoMark(s, r)
    case RelayStops(r) => s.(relays := s.relays - {r})
    case Deliver(w, event) => DoDeliver(s, w, event)
    case ClaimNext(w) => DoClaim(reg, s, w)
    case HandlerSucceeds(w) => DoSucceed(reg, s, w)
    case HandlerThrows(w) => DoThrow(reg, s, w)
    case Unclaim(w) => DoUnclaim(reg, s, w)
    case CompleteJob(w) => DoComplete(reg, s, w)
    case WorkerCrashes(w) => s.(workers := s.workers - {w})
  }

  function Run(reg: Registry, s: Sys, steps: seq<Step>): Sys
    decreases |steps|
  {
    if steps == [] then s else Run(reg, Next(reg, s, steps[0]), steps[1..])
  }

  lemma {:induction false} RunConcat(reg: Registry, s: Sys, xs: seq<Step>, ys: seq<Step>)
    ensures Run(reg, s, xs + ys) == Run(reg, Run(reg, s, xs), ys)
    decreases |xs|
  {
    hide Next;
    if xs == [] {
      assert xs + ys == ys;
    } else {
      assert (xs + ys)[1..] == xs[1..] + ys;
      RunConcat(reg, Next(reg, s, xs[0]), xs[1..], ys);
    }
  }

  lemma RunOne(reg: Registry, s: Sys, x: Step)
    ensures Run(reg, s, [x]) == Next(reg, s, x)
  {
    assert [x][1..] == [];
  }

  // --- the invariant ------------------------------------------------------------------------

  /** The attempt is between claiming a key and settling it. */
  predicate Holds(reg: Registry, s: Sys, w: nat) { AtHandler(reg, s, w) && s.workers[w].phase != Claiming }

  predicate HoldsKey(reg: Registry, s: Sys, w: nat, key: Key) { Holds(reg, s, w) && KeyAt(reg, s, w) == key }

  /** A key is claimed while held, by one attempt at a time. */
  ghost predicate ClaimsOk(reg: Registry, s: Sys) {
    && (forall w <- s.workers :: Holds(reg, s, w) ==> KeyAt(reg, s, w) in s.claims)
    && forall w <- s.workers, v <- s.workers ::
         w != v && Holds(reg, s, w) && Holds(reg, s, v) ==> KeyAt(reg, s, w) != KeyAt(reg, s, v)
  }

  /** A handler that has taken effect stays claimed, is held by nobody, and took effect once. */
  ghost predicate EffectsOk(reg: Registry, s: Sys) {
    && (forall k <- s.effects :: k in s.claims && k.event in s.enqueued && k.handler in HandlersOf(reg, s, k.event))
    && (forall w <- s.workers :: Holds(reg, s, w) ==> KeyAt(reg, s, w) !in s.effects)
    && forall i, j | 0 <= i < j < |s.effects| :: s.effects[i] != s.effects[j]
  }

  ghost predicate QueueOk(s: Sys) {
    && s.marked <= s.enqueued && s.queue <= s.enqueued && s.enqueued <= s.rows.Keys
    && (forall w <- s.workers :: s.workers[w].event in s.enqueued)
    && forall r <- s.relays :: RelayOk(s, s.relays[r])
  }

  ghost predicate RelayOk(s: Sys, relay: Relay) {
    && (forall e <- relay.pending :: e in s.rows)
    && (relay.added && relay.at < |relay.pending| ==> relay.pending[relay.at] in s.enqueued)
  }

  lemma QueueKept(reg: Registry, s: Sys, step: Step)
    requires QueueOk(s)
    ensures QueueOk(Next(reg, s, step))
    ensures s.enqueued <= Next(reg, s, step).enqueued
  {
  }

  /** Rows never change, so every attempt keeps its handler list. */
  lemma SameHandlers(reg: Registry, s: Sys, step: Step, event: Id)
    requires event in s.rows
    ensures HandlersOf(reg, Next(reg, s, step), event) == HandlersOf(reg, s, event)
  {
  }

  /** The only new holder is the attempt that just claimed a free key. */
  lemma HoldersAfter(reg: Registry, s: Sys, step: Step, w: nat)
    requires QueueOk(s)
    ensures var s' := Next(reg, s, step);
      Holds(reg, s', w) ==>
        || (Holds(reg, s, w) && KeyAt(reg, s', w) == KeyAt(reg, s, w))
        || (step == ClaimNext(w) && KeyAt(reg, s', w) in s'.claims - s.claims)
  {
    var s' := Next(reg, s, step);
    if w in s.workers { SameHandlers(reg, s, step, s.workers[w].event); }
  }

  /** Claims are only given up for a key the attempt holds. */
  lemma ClaimsAfter(reg: Registry, s: Sys, step: Step)
    requires QueueOk(s)
    ensures var s' := Next(reg, s, step);
      forall k <- s.claims :: k !in s'.claims ==>
           step.Unclaim? && HoldsKey(reg, s, step.worker, k) && step.worker !in s'.workers
  {
  }

  lemma ClaimsKept(reg: Registry, s: Sys, step: Step)
    requires QueueOk(s) && ClaimsOk(reg, s)
    ensures ClaimsOk(reg, Next(reg, s, step))
  {
    hide Next, QueueOk;
    var s' := Next(reg, s, step);
    ClaimsAfter(reg, s, step);
    forall w | w in s'.workers && Holds(reg, s', w) ensures KeyAt(reg, s', w) in s'.claims {
      HoldersAfter(reg, s, step, w);
      HolderWasThere(reg, s, w);
    }
    forall w, v | w in s'.workers && v in s'.workers && w != v && Holds(reg, s', w) && Holds(reg, s', v)
      ensures KeyAt(reg, s', w) != KeyAt(reg, s', v)
    {
      HoldersAfter(reg, s, step, w);
      HoldersAfter(reg, s, step, v);
      HolderWasThere(reg, s, w);
      HolderWasThere(reg, s, v);
    }
  }

  lemma HolderWasThere(reg: Registry, s: Sys, w: nat)
    ensures Holds(reg, s, w) ==> w in s.workers
  {
  }

  /** The effect added is the key its attempt held. */
  lemma EffectsAfter(reg: Registry, s: Sys, step: Step)
    ensures var s' := Next(reg, s, step);
      || s'.effects == s.effects
      || (step.HandlerSucceeds? && Holds(reg, s, step.worker) && !Holds(reg, s', step.worker)
          && s'.effects == s.effects + [KeyAt(reg, s, step.worker)])
  {
  }

  lemma EffectsKept(reg: Registry, s: Sys, step: Step)
    requires QueueOk(s) && ClaimsOk(reg, s) && EffectsOk(reg, s)
    ensures EffectsOk(reg, Next(reg, s, step))
  {
    hide Next;
    var s' := Next(reg, s, step);
    EffectsAfter(reg, s, step);
    QueueKept(reg, s, step);
    ClaimsAfter(reg, s, step);
    forall k | k in s'.effects
      ensures k in s'.claims && k.event in s'.enqueued && k.handler in HandlersOf(reg, s', k.event)
    {
      EffectStaysClaimed(reg, s, step, k);
    }
    forall w | w in s'.workers && Holds(reg, s', w) ensures KeyAt(reg, s', w) !in s'.effects {
      HoldersAfter(reg, s, step, w);
      HolderWasThere(reg, s, w);
      if step.HandlerSucceeds? { HolderWasThere(reg, s, step.worker); }
    }
    if step.HandlerSucceeds? { HolderWasThere(reg, s, step.worker); }
  }

  lemma EffectStaysClaimed(reg: Registry, s: Sys, step: Step, k: Key)
    requires QueueOk(s) && ClaimsOk(reg, s) && EffectsOk(reg, s) && k in Next(reg, s, step).effects
    ensures var s' := Next(reg, s, step);
      k in s'.claims && k.event in s'.enqueued && k.handler in HandlersOf(reg, s', k.event)
  {
    hide Next;
    EffectsAfter(reg, s, step);
    QueueKept(reg, s, step);
    ClaimsAfter(reg, s, step);
    if k !in s.effects {
      HolderWasThere(reg, s, step.worker);
      assert k == KeyAt(reg, s, step.worker);
    }
    SameHandlers(reg, s, step, k.event);
  }

  ghost predicate DeliveryInv(reg: Registry, s: Sys) { QueueOk(s) && ClaimsOk(reg, s) && EffectsOk(reg, s) }

  lemma StartInv(reg: Registry)
    ensures DeliveryInv(reg, Start)
  {
  }

  lemma {:induction false} RunKeeps(reg: Registry, s: Sys, steps: seq<Step>)
    requires DeliveryInv(reg, s)
    ensures DeliveryInv(reg, Run(reg, s, steps))
    decreases |steps|
  {
    hide Next, QueueOk, ClaimsOk, EffectsOk;
    if steps != [] {
      QueueKept(reg, s, steps[0]);
      ClaimsKept(reg, s, steps[0]);
      EffectsKept(reg, s, steps[0]);
      RunKeeps(reg, Next(reg, s, steps[0]), steps[1..]);
    }
  }

  /**
   * At most once under crashes: for every interleaving of relays, deliveries, failures and crashes,
   * a handler takes effect at most once per event, only for an event that was enqueued and that it
   * is registered for; every row marked dispatched was enqueued, and only outbox rows are enqueued.
   */
  lemma AtMostOnce(reg: Registry, steps: seq<Step>, key: Key)
    ensures var s := Run(reg, Start, steps);
      && multiset(s.effects)[key] <= 1
      && (key in s.effects ==> key.event in s.enqueued && key.handler in HandlersOf(reg, s, key.event))
      && s.marked <= s.enqueued <= s.rows.Keys
  {
    hide Run;
    RunKeeps(reg, Start, steps);
    DistinctCountsOnce(Run(reg, Start, steps).effects, key);
  }

  lemma {:induction false} DistinctCountsOnce<T>(xs: seq<T>, x: T)
    requires forall i, j | 0 <= i < j < |xs| :: xs[i] != xs[j]
    ensures multiset(xs)[x] <= 1
  {
    if xs != [] {
      assert xs == [xs[0]] + xs[1..];
      DistinctCountsOnce(xs[1..], x);
      assert xs[0] !in xs[1..];
    }
  }

  // --- how an effect can be lost ------------------------------------------------------------

  /** A claim left behind: nobody holds it and its handler has not taken effect. */
  ghost predicate Orphaned(reg: Registry, s: Sys, key: Key) {
    key in s.claims && key !in s.effects && forall w <- s.workers :: !HoldsKey(reg, s, w, key)
  }

  lemma OrphanStays(reg: Registry, s: Sys, step: Step, key: Key)
    requires QueueOk(s) && Orphaned(reg, s, key)
    ensures Orphaned(reg, Next(reg, s, step), key)
  {
    hide Next, QueueOk;
    var s' := Next(reg, s, step);
    ClaimsAfter(reg, s, step);
    EffectsAfter(reg, s, step);
    if step.Unclaim? || step.HandlerSucceeds? { HolderWasThere(reg, s, step.worker); }
    forall w | w in s'.workers ensures !HoldsKey(reg, s', w, key) {
      HoldersAfter(reg, s, step, w);
      HolderWasThere(reg, s, w);
    }
  }

  /** Once a claim is orphaned, its handler never takes effect for that event, whatever happens next. */
  lemma {:induction false} OrphanNeverTakesEffect(reg: Registry, s: Sys, steps: seq<Step>, key: Key)
    requires QueueOk(s) && Orphaned(reg, s, key)
    ensures key !in Run(reg, s, steps).effects
    decreases |steps|
  {
    hide Next, QueueOk;
    if steps != [] {
      QueueKept(reg, s, steps[0]);
      OrphanStays(reg, s, steps[0], key);
      OrphanNeverTakesEffect(reg, Next(reg, s, steps[0]), steps[1..], key);
    }
  }

  /** A worker that crashes while handling orphans its claim: the claim is written before the handler runs. */
  lemma CrashOrphans(reg: Registry, s: Sys, w: nat)
    requires DeliveryInv(reg, s) && InPhase(reg, s, w, Handling)
    ensures Orphaned(reg, Next(reg, s, WorkerCrashes(w)), KeyAt(reg, s, w))
  {
    var key := KeyAt(reg, s, w);
    var s' := Next(reg, s, WorkerCrashes(w));
    assert Holds(reg, s, w);
    forall v | v in s'.workers ensures !HoldsKey(reg, s', v, key) {
      assert v in s.workers && v != w;
      HoldersAfter(reg, s, WorkerCrashes(w), v);
    }
  }

  /** A crash in the middle of a handler loses its effect for good. */
  lemma CrashLosesTheEffect(reg: Registry, before: seq<Step>, w: nat, after: seq<Step>)
    requires InPhase(reg, Run(reg, Start, before), w, Handling)
    ensures var s := Run(reg, Start, before);
      KeyAt(reg, s, w) !in Run(reg, Next(reg, s, WorkerCrashes(w)), after).effects
  {
    hide Run, Next, QueueOk, ClaimsOk, EffectsOk;
    var s := Run(reg, Start, before);
    StartInv(reg);
    RunKeeps(reg, Start, before);
    CrashOrphans(reg, s, w);
    QueueKept(reg, s, WorkerCrashes(w));
    OrphanNeverTakesEffect(reg, Next(reg, s, WorkerCrashes(w)), after, KeyAt(reg, s, w));
  }

  // --- how an event can not be lost ---------------------------------------------------------

  /** Step `k` of the run completes a delivery of the event that has passed its last handler. */
  ghost predicate CompletedAt(reg: Registry, steps: seq<Step>, event: Id, k: nat) {
    && k < |steps| && steps[k].CompleteJob?
    && var s := Run(reg, Start, steps[..k]); var w := steps[k].worker;
      w in s.workers && s.workers[w].event == event && s.workers[w].at >= |HandlersOf(reg, s, event)|
  }

  lemma RunSnoc(reg: Registry, s: Sys, steps: seq<Step>, step: Step)
    ensures Run(reg, s, steps + [step]) == Next(reg, Run(reg, s, steps), step)
  {
    RunConcat(reg, s, steps, [step]);
    RunOne(reg, Run(reg, s, steps), step);
  }

  /** A job appears with its event's first enqueuing and leaves only through a completed delivery. */
  lemma JobStep(reg: Registry, s: Sys, step: Step, event: Id)
    ensures var s' := Next(reg, s, step);
      && (event in s'.enqueued ==> event in s.enqueued || event in s'.queue)
      && (event in s.queue && event !in s'.queue ==>
            && step.CompleteJob? && step.worker in s.workers && s.workers[step.worker].event == event
            && s.workers[step.worker].at >= |HandlersOf(reg, s, event)|)
  {
  }

  /**
   * Nothing marked dispatched gets lost between outbox and handlers: in every run its job is still in
   * the queue, or a delivery of it has gone past the last handler registered for it.
   */
  lemma {:induction false} NoEventLost(reg: Registry, steps: seq<Step>, event: Id)
    requires event in Run(reg, Start, steps).enqueued || event in Run(reg, Start, steps).marked
    ensures event in Run(reg, Start, steps).queue || exists k :: CompletedAt(reg, steps, event, k)
    decreases |steps|
  {
    hide Run, Next, QueueOk, ClaimsOk, EffectsOk;
    StartInv(reg);
    RunKeeps(reg, Start, steps);
    MarkedWasEnqueued(reg, Run(reg, Start, steps), event);
    if steps == [] {
      EmptyRun(reg);
    } else {
      var rest, last := steps[..|steps| - 1], steps[|steps| - 1];
      assert steps == rest + [last];
      RunSnoc(reg, Start, rest, last);
      JobStep(reg, Run(reg, Start, rest), last, event);
      if event in Run(reg, Start, rest).enqueued {
        NoEventLost(reg, rest, event);
        CompletionStays(reg, rest, last, event);
      }
    }
  }

  lemma MarkedWasEnqueued(reg: Registry, s: Sys, event: Id)
    requires DeliveryInv(reg, s)
    ensures event in s.marked ==> event in s.enqueued
  {
  }

  lemma EmptyRun(reg: Registry)
    ensures Run(reg, Start, []) == Start
  {
  }

  lemma CompletionStays(reg: Registry, rest: seq<Step>, last: Step, event: Id)
    ensures (exists k :: CompletedAt(reg, rest, event, k)) ==> exists k :: CompletedAt(reg, rest + [last], event, k)
    ensures var s := Run(reg, Start, rest);
      last.CompleteJob? && last.worker in s.workers && s.workers[last.worker].event == event
      && s.workers[last.worker].at >= |HandlersOf(reg, s, event)| ==>
        exists k :: CompletedAt(reg, rest + [last], event, k)
  {
    hide Run;
    var steps := rest + [last];
    if k: nat :| CompletedAt(reg, rest, event, k) {
      assert steps[..k] == rest[..k];
      assert CompletedAt(reg, steps, event, k);
    }
    assert steps[..|rest|] == rest;
    if CompletedAt(reg, steps, event, |rest|) {
    }
  }

  // --- a relay on its own -------------------------------------------------------------------

  function RelaySteps(r: nat, n: nat): seq<Step>
    decreases n
  {
    if n == 0 then [] else RelaySteps(r, n - 1) + [AddJob(r), MarkDispatched(r)]
  }

  /** The first `n` rows of the batch are queued and marked, and nothing else has changed. */
  ghost predicate RelayedUpTo(s: Sys, r: nat, batch: seq<Id>, n: nat, s': Sys) {
    n <= |batch| && s' == WithRelayed(s, Elements(batch[..n])).(relays := s.relays[r := Relay(batch, n, false)])
  }

  function WithRelayed(s: Sys, ids: set<Id>): Sys {
    s.(marked := s.marked + ids, queue := s.queue + ids, enqueued := s.enqueued + ids)
  }

  lemma WithOneMore(s: Sys, ids: set<Id>, e: Id)
    ensures WithRelayed(s, ids + {e}) == WithRelayed(WithRelayed(s, ids), {e})
  {
    assert s.marked + (ids + {e}) == s.marked + ids + {e};
    assert s.queue + (ids + {e}) == s.queue + ids + {e};
    assert s.enqueued + (ids + {e}) == s.enqueued + ids + {e};
  }

  /** Enqueue, then mark: one row of the batch. */
  lemma AddAndMark(reg: Registry, s: Sys, r: nat, batch: seq<Id>, n: nat)
    requires n < |batch| && r in s.relays && s.relays[r] == Relay(batch, n, false)
    ensures Next(reg, Next(reg, s, AddJob(r)), MarkDispatched(r))
      == WithRelayed(s, {batch[n]}).(relays := s.relays[r := Relay(batch, n + 1, false)])
  {
    var s1 := DoAddJob(s, r);
    assert s1.relays == s.relays[r := Relay(batch, n, true)];
    assert DoMark(s1, r).relays == s.relays[r := Relay(batch, n + 1, false)];
  }

  lemma RelayOneRow(reg: Registry, s: Sys, r: nat, batch: seq<Id>, n: nat, s1: Sys)
    requires n < |batch| && RelayedUpTo(s, r, batch, n, s1)
    ensures RelayedUpTo(s, r, batch, n + 1, Next(reg, Next(reg, s1, AddJob(r)), MarkDispatched(r)))
  {
    hide Next, Elements;
    ElementsGrow(batch, n);
    WithOneMore(s, Elements(batch[..n]), batch[n]);
    AddAndMark(reg, s1, r, batch, n);
    assert s1.relays[r := Relay(batch, n + 1, false)] == s.relays[r := Relay(batch, n + 1, false)];
  }

  lemma {:induction false} RelayRows(reg: Registry, s: Sys, r: nat, batch: seq<Id>, n: nat, s1: Sys)
    requires n <= |batch| && RelayedUpTo(s, r, batch, 0, s1)
    ensures RelayedUpTo(s, r, batch, n, Run(reg, s1, RelaySteps(r, n)))
    decreases n
  {
    hide RelayedUpTo, Next;
    if n > 0 {
      RelayRows(reg, s, r, batch, n - 1, s1);
      var s2 := Run(reg, s1, RelaySteps(r, n - 1));
      RelayOneRow(reg, s, r, batch, n - 1, s2);
      RunConcat(reg, s1, RelaySteps(r, n - 1), [AddJob(r), MarkDispatched(r)]);
      assert [AddJob(r), MarkDispatched(r)] == [AddJob(r)] + [MarkDispatched(r)];
      RunConcat(reg, s2, [AddJob(r)], [MarkDispatched(r)]);
      RunOne(reg, s2, AddJob(r));
      RunOne(reg, Next(reg, s2, AddJob(r)), MarkDispatched(r));
    }
  }

  lemma PollStarts(reg: Registry, s: Sys, r: nat, batch: seq<Id>)
    requires r !in s.relays && forall e <- batch :: e in s.rows && e !in s.marked
    ensures RelayedUpTo(s, r, batch, 0, Next(reg, s, Poll(r, batch)))
  {
    NoElements(batch);
    assert s.marked + {} == s.marked && s.queue + {} == s.queue && s.enqueued + {} == s.enqueued;
  }

  /** A relay left alone with a batch of unmarked rows queues and marks exactly those and is idle again. */
  lemma RelayAlone(reg: Registry, s: Sys, r: nat, batch: seq<Id>)
    requires r !in s.relays && forall e <- batch :: e in s.rows && e !in s.marked
    ensures var s' := Run(reg, s, [Poll(r, batch)] + RelaySteps(r, |batch|) + [RelayStops(r)]);
      var ids := set e | e in batch;
      s' == s.(marked := s.marked + ids, queue := s.queue + ids, enqueued := s.enqueued + ids)
  {
    var s1 := Next(reg, s, Poll(r, batch));
    PollStarts(reg, s, r, batch);
    RelayRows(reg, s, r, batch, |batch|, s1);
    assert batch[..|batch|] == batch;
    var s2 := Run(reg, s1, RelaySteps(r, |batch|));
    RunConcat(reg, s, [Poll(r, batch)] + RelaySteps(r, |batch|), [RelayStops(r)]);
    RunConcat(reg, s, [Poll(r, batch)], RelaySteps(r, |batch|));
    RunOne(reg, s, Poll(r, batch));
    RunOne(reg, s2, RelayStops(r));
    assert s.relays[r := Relay(batch, |batch|, false)] - {r} == s.relays;
  }
}
