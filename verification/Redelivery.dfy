/** Attempts at one event that do not crash and do not overlap: what retrying achieves. */
module Redelivery {
  import opened Prelude
  import opened Delivery

  datatype Outcome = Outcome(claims: set<Key>, effects: seq<Key>, ok: bool)

  /** One attempt over the remaining handlers; `throwing` names the handlers that throw this time. */
  function AttemptOutcome(hs: seq<Id>, event: Id, claims: set<Key>, effects: seq<Key>, throwing: set<Id>): Outcome
    decreases |hs|
  {
    if hs == [] then Outcome(claims, effects, true)
    else
      var key := Key(hs[0], event);
      if key in claims then AttemptOutcome(hs[1..], event, claims, effects, throwing)
      else if hs[0] in throwing then Outcome(claims, effects, false)
      else AttemptOutcome(hs[1..], event, claims + {key}, effects + [key], throwing)
  }

  /** Attempt after attempt; `ok` is the verdict of the last one. */
  function Retry(hs: seq<Id>, event: Id, start: Outcome, attempts: seq<set<Id>>): Outcome
    decreases |attempts|
  {
    if attempts == [] then start
    else
      var before := Retry(hs, event, start, attempts[..|attempts| - 1]);
      AttemptOutcome(hs, event, before.claims, before.effects, attempts[|attempts| - 1])
  }

  ghost predicate Distinct(hs: seq<Id>) { forall i, j | 0 <= i < j < |hs| :: hs[i] != hs[j] }

  function KeysOf(hs: seq<Id>, event: Id): seq<Key> {
    seq(|hs|, i requires 0 <= i < |hs| => Key(hs[i], event))
  }

  /** The first `n` handlers, and no others, have claimed and taken effect, once each and in order. */
  ghost predicate Prefix(hs: seq<Id>, event: Id, n: nat, claims: set<Key>, effects: seq<Key>) {
    && n <= |hs| && effects == KeysOf(hs[..n], event)
    && forall i | 0 <= i < |hs| :: Key(hs[i], event) in claims <==> i < n
  }

  lemma {:induction false} AttemptExtends(
    hs: seq<Id>, k: nat, event: Id, n: nat, claims: set<Key>, effects: seq<Key>, throwing: set<Id>)
    returns (n': nat)
    requires Distinct(hs) && k <= n && Prefix(hs, event, n, claims, effects)
    ensures var o := AttemptOutcome(hs[k..], event, claims, effects, throwing);
      n <= n' && Prefix(hs, event, n', o.claims, o.effects) && (o.ok <==> n' == |hs|)
    decreases |hs| - k
  {
    if k == |hs| {
      n' := n;
    } else {
      assert hs[k..][1..] == hs[k + 1..];
      var key := Key(hs[k], event);
      if k < n {
        n' := AttemptExtends(hs, k + 1, event, n, claims, effects, throwing);
      } else if hs[k] in throwing {
        n' := n;
      } else {
        assert KeysOf(hs[..n + 1], event) == effects + [key];
        forall i | 0 <= i < |hs| ensures Key(hs[i], event) in claims + {key} <==> i < n + 1 {
          if i > k { assert hs[k] != hs[i]; } else if i < k { assert hs[i] != hs[k]; }
        }
        n' := AttemptExtends(hs, k + 1, event, n + 1, claims + {key}, effects + [key], throwing);
      }
    }
  }

  /**
   * Over any sequence of attempts at an event nobody has claimed, the handlers that have succeeded are
   * a prefix of the registered list, once each and in order; when the last attempt returned normally
   * it is the whole list.
   */
  lemma {:induction false} RetryGivesExactlyOnce(hs: seq<Id>, event: Id, claims: set<Key>, attempts: seq<set<Id>>)
    returns (n: nat)
    requires Distinct(hs) && forall h <- hs :: Key(h, event) !in claims
    ensures var o := Retry(hs, event, Outcome(claims, [], false), attempts);
      && n <= |hs| && o.effects == KeysOf(hs[..n], event)
      && (forall i | 0 <= i < |hs| :: Key(hs[i], event) in o.claims <==> i < n)
      && (o.ok ==> o.effects == KeysOf(hs, event))
    decreases |attempts|
  {
    if attempts == [] {
      n := 0;
    } else {
      var last := |attempts| - 1;
      var m := RetryGivesExactlyOnce(hs, event, claims, attempts[..last]);
      var before := Retry(hs, event, Outcome(claims, [], false), attempts[..last]);
      assert hs[0..] == hs;
      n := AttemptExtends(hs, 0, event, m, before.claims, before.effects, attempts[last]);
      assert hs[..|hs|] == hs;
    }
  }

  /** An attempt returns normally exactly when no handler that is still unclaimed throws. */
  lemma {:induction false} NormalReturnIff(hs: seq<Id>, event: Id, claims: set<Key>, effects: seq<Key>, throwing: set<Id>)
    requires Distinct(hs)
    ensures AttemptOutcome(hs, event, claims, effects, throwing).ok <==>
      forall h <- hs :: Key(h, event) in claims || h !in throwing
    decreases |hs|
  {
    if hs != [] {
      var key := Key(hs[0], event);
      if key in claims {
        NormalReturnIff(hs[1..], event, claims, effects, throwing);
      } else if hs[0] in throwing {
        assert hs[0] in hs;
      } else {
        NormalReturnIff(hs[1..], event, claims + {key}, effects + [key], throwing);
        forall h | h in hs[1..] ensures Key(h, event) in claims + {key} <==> Key(h, event) in claims {
          var i :| 0 <= i < |hs[1..]| && hs[1..][i] == h;
          assert hs[0] != hs[i + 1];
        }
      }
    }
  }

  /**
   * After a normal return every handler has taken effect exactly when no claim was left over, at the
   * start, from a handler that had not.
   */
  lemma {:induction false} CompleteIffNoOrphan(hs: seq<Id>, event: Id, claims: set<Key>, effects: seq<Key>, throwing: set<Id>)
    requires forall k <- effects :: k in claims
    requires AttemptOutcome(hs, event, claims, effects, throwing).ok
    ensures (forall h <- hs :: Key(h, event) in AttemptOutcome(hs, event, claims, effects, throwing).effects)
      <==> forall h <- hs :: Key(h, event) in claims ==> Key(h, event) in effects
    decreases |hs|
  {
    if hs != [] {
      var key := Key(hs[0], event);
      if key in claims {
        CompleteIffNoOrphan(hs[1..], event, claims, effects, throwing);
        OnlyFreshEffects(hs[1..], event, claims, effects, throwing, key);
      } else {
        CompleteIffNoOrphan(hs[1..], event, claims + {key}, effects + [key], throwing);
        OnlyFreshEffects(hs[1..], event, claims + {key}, effects + [key], throwing, key);
      }
    }
  }

  /** An attempt adds effects only for keys that were free, and loses none. */
  lemma {:induction false} OnlyFreshEffects(
    hs: seq<Id>, event: Id, claims: set<Key>, effects: seq<Key>, throwing: set<Id>, key: Key)
    requires key in claims
    ensures key in AttemptOutcome(hs, event, claims, effects, throwing).effects <==> key in effects
    decreases |hs|
  {
    if hs != [] && Key(hs[0], event) in claims {
      OnlyFreshEffects(hs[1..], event, claims, effects, throwing, key);
    } else if hs != [] && hs[0] !in throwing {
      OnlyFreshEffects(hs[1..], event, claims + {Key(hs[0], event)}, effects + [Key(hs[0], event)], throwing, key);
    }
  }

  // --- the same attempt as steps of the protocol --------------------------------------------

  /** The steps one worker takes, alone, from its next handler on. */
  function SoloSteps(w: nat, hs: seq<Id>, event: Id, claims: set<Key>, throwing: set<Id>): seq<Step>
    decreases |hs|
  {
    if hs == [] then [CompleteJob(w)]
    else
      var key := Key(hs[0], event);
      if key in claims then [ClaimNext(w)] + SoloSteps(w, hs[1..], event, claims, throwing)
      else if hs[0] in throwing then [ClaimNext(w), HandlerThrows(w), Unclaim(w)]
      else [ClaimNext(w), HandlerSucceeds(w)] + SoloSteps(w, hs[1..], event, claims + {key}, throwing)
  }

  lemma RunTwo(reg: Registry, s: Sys, x: Step, y: Step)
    ensures Run(reg, s, [x, y]) == Next(reg, Next(reg, s, x), y)
  {
    hide Next;
    assert [x, y] == [x] + [y];
    RunConcat(reg, s, [x], [y]);
    RunOne(reg, s, x);
    RunOne(reg, Next(reg, s, x), y);
  }

  /** Worker `w` is about to claim handler `k` of its event. */
  ghost predicate Positioned(reg: Registry, s: Sys, w: nat, event: Id, k: nat) {
    && event in s.rows && k <= |HandlersOf(reg, s, event)|
    && w in s.workers && s.workers[w] == Attempt(event, k, Claiming)
  }

  ghost predicate Settled(s: Sys, o: Outcome, w: nat, event: Id, s': Sys) {
    && s'.claims == o.claims && s'.effects == o.effects && w !in s'.workers
    && s'.queue == (if o.ok then s.queue - {event} else s.queue)
  }

  lemma ClaimSkips(reg: Registry, s: Sys, w: nat, event: Id, k: nat)
    requires Positioned(reg, s, w, event, k) && k < |HandlersOf(reg, s, event)|
    requires Key(HandlersOf(reg, s, event)[k], event) in s.claims
    ensures var s' := Next(reg, s, ClaimNext(w));
      && Positioned(reg, s', w, event, k + 1)
      && s'.claims == s.claims && s'.effects == s.effects && s'.queue == s.queue && s'.rows == s.rows
  {
  }

  lemma ClaimThrows(reg: Registry, s: Sys, w: nat, event: Id, k: nat)
    requires Positioned(reg, s, w, event, k) && k < |HandlersOf(reg, s, event)|
    requires Key(HandlersOf(reg, s, event)[k], event) !in s.claims
    ensures var s' := Next(reg, Next(reg, Next(reg, s, ClaimNext(w)), HandlerThrows(w)), Unclaim(w));
      s'.claims == s.claims && s'.effects == s.effects && s'.queue == s.queue && w !in s'.workers
  {
  }

  lemma ClaimSucceeds(reg: Registry, s: Sys, w: nat, event: Id, k: nat)
    requires Positioned(reg, s, w, event, k) && k < |HandlersOf(reg, s, event)|
    requires Key(HandlersOf(reg, s, event)[k], event) !in s.claims
    ensures var s' := Next(reg, Next(reg, s, ClaimNext(w)), HandlerSucceeds(w));
      var key := Key(HandlersOf(reg, s, event)[k], event);
      && Positioned(reg, s', w, event, k + 1)
      && s'.claims == s.claims + {key} && s'.effects == s.effects + [key]
      && s'.queue == s.queue && s'.rows == s.rows
  {
  }

  lemma {:induction false} SoloFrom(reg: Registry, s: Sys, w: nat, event: Id, k: nat, throwing: set<Id>)
    requires Positioned(reg, s, w, event, k)
    ensures var rest := HandlersOf(reg, s, event)[k..];
      Settled(s, AttemptOutcome(rest, event, s.claims, s.effects, throwing), w, event,
              Run(reg, s, SoloSteps(w, rest, event, s.claims, throwing)))
    decreases |HandlersOf(reg, s, event)| - k
  {
    var hs := HandlersOf(reg, s, event);
    if k == |hs| {
      RunOne(reg, s, CompleteJob(w));
    } else {
      hide Next;
      var key := Key(hs[k], event);
      assert hs[k..][1..] == hs[k + 1..];
      if key in s.claims {
        ClaimSkips(reg, s, w, event, k);
        RunOne(reg, s, ClaimNext(w));
        RunConcat(reg, s, [ClaimNext(w)], SoloSteps(w, hs[k + 1..], event, s.claims, throwing));
        SoloFrom(reg, Next(reg, s, ClaimNext(w)), w, event, k + 1, throwing);
      } else if hs[k] in throwing {
        ClaimThrows(reg, s, w, event, k);
        assert [ClaimNext(w), HandlerThrows(w), Unclaim(w)] == [ClaimNext(w), HandlerThrows(w)] + [Unclaim(w)];
        RunConcat(reg, s, [ClaimNext(w), HandlerThrows(w)], [Unclaim(w)]);
        RunTwo(reg, s, ClaimNext(w), HandlerThrows(w));
        RunOne(reg, Next(reg, Next(reg, s, ClaimNext(w)), HandlerThrows(w)), Unclaim(w));
      } else {
        ClaimSucceeds(reg, s, w, event, k);
        RunTwo(reg, s, ClaimNext(w), HandlerSucceeds(w));
        RunConcat(reg, s, [ClaimNext(w), HandlerSucceeds(w)], SoloSteps(w, hs[k + 1..], event, s.claims + {key}, throwing));
        SoloFrom(reg, Next(reg, Next(reg, s, ClaimNext(w)), HandlerSucceeds(w)), w, event, k + 1, throwing);
      }
    }
  }

  /** A worker left alone with a queued event does exactly one sequential attempt. */
  lemma SoloAttempt(reg: Registry, s: Sys, w: nat, event: Id, throwing: set<Id>)
    requires w !in s.workers && event in s.queue && event in s.rows
    ensures var hs := HandlersOf(reg, s, event);
      Settled(s, AttemptOutcome(hs, event, s.claims, s.effects, throwing), w, event,
              Run(reg, s, [Deliver(w, event)] + SoloSteps(w, hs, event, s.claims, throwing)))
  {
    var hs := HandlersOf(reg, s, event);
    var s1 := Next(reg, s, Deliver(w, event));
    RunOne(reg, s, Deliver(w, event));
    RunConcat(reg, s, [Deliver(w, event)], SoloSteps(w, hs, event, s.claims, throwing));
    assert hs[0..] == hs;
    SoloFrom(reg, s1, w, event, 0, throwing);
  }

  // --- the worker in the form the source has ------------------------------------------------

  /** The Redis markers and what the handlers have done. */
  class DomainEventsWorker {
    var claims: set<Key>
    var effects: seq<Key>

    constructor ()
      ensures claims == {} && effects == []
    {
      claims, effects := {}, [];
    }

    /** Set-if-absent: true when the key was free. */
    method SetIfAbsent(key: Key) returns (claimed: bool)
      modifies this`claims
      ensures claimed == (key !in old(claims)) && claims == old(claims) + {key}
    {
      claimed := key !in claims;
      claims := claims + {key};
    }

    /** Runs a handler; one that throws has no effect. */
    method Handle(key: Key, throwing: set<Id>) returns (ok: bool)
      modifies this`effects
      ensures ok == (key.handler !in throwing)
      ensures effects == if ok then old(effects) + [key] else old(effects)
    {
      ok := key.handler !in throwing;
      if ok { effects := effects + [key]; }
    }

    /** Claim, handle, un-claim on failure; stops at the first handler that throws. */
    method Process(handlers: seq<Id>, event: Id, throwing: set<Id>) returns (ok: bool)
      modifies this
      ensures Outcome(claims, effects, ok) == AttemptOutcome(handlers, event, old(claims), old(effects), throwing)
    {
      for i := 0 to |handlers|
        invariant AttemptOutcome(handlers[i..], event, claims, effects, throwing)
          == AttemptOutcome(handlers, event, old(claims), old(effects), throwing)
      {
        assert handlers[i..][1..] == handlers[i + 1..];
        var key := Key(handlers[i], event);
        ghost var before := claims;
        var claimed := SetIfAbsent(key);
        if !claimed {
          assert claims == before;
          continue;
        }
        var done := Handle(key, throwing);
        if !done {
          claims := claims - {key};
          assert claims == before;
          return false;
        }
      }
      return true;
    }
  }
}
