/**
 * The outbox and its relay, and the registry of handlers, in the form the source has: appended rows,
 * a batch read oldest first, enqueue then mark with a `running` flag, handlers pushed into lists.
 */
module Outbox {
  import opened Prelude
  import opened Delivery

  datatype OutboxRow = OutboxRow(id: Id, eventType: string)

  /** Ids of the rows not marked dispatched, oldest first. */
  function Undispatched(rows: seq<OutboxRow>, marked: set<Id>): seq<Id> {
    if rows == [] then []
    else (if rows[0].id in marked then [] else [rows[0].id]) + Undispatched(rows[1..], marked)
  }

  function Batch(rows: seq<OutboxRow>, marked: set<Id>, size: nat): seq<Id> {
    Undispatched(rows, marked)[..Least(size, |Undispatched(rows, marked)|)]
  }

  ghost predicate DistinctRows(rows: seq<OutboxRow>) {
    forall i, j | 0 <= i < j < |rows| :: rows[i].id != rows[j].id
  }

  lemma {:induction false} UndispatchedMembers(rows: seq<OutboxRow>, marked: set<Id>)
    ensures forall e :: e in Undispatched(rows, marked) <==> e !in marked && exists r <- rows :: r.id == e
  {
    if rows != [] {
      UndispatchedMembers(rows[1..], marked);
      assert rows == [rows[0]] + rows[1..];
    }
  }

  lemma DistinctTail(rows: seq<OutboxRow>)
    requires DistinctRows(rows) && rows != []
    ensures DistinctRows(rows[1..]) && forall r <- rows[1..] :: r.id != rows[0].id
  {
    forall i, j | 0 <= i < j < |rows[1..]| ensures rows[1..][i].id != rows[1..][j].id {
      assert rows[i + 1].id != rows[j + 1].id;
    }
    forall r | r in rows[1..] ensures r.id != rows[0].id {
      var i :| 0 <= i < |rows[1..]| && rows[1..][i] == r;
      assert rows[0].id != rows[i + 1].id;
    }
  }

  /** Marking ids that are not in the rows changes nothing. */
  lemma {:induction false} MarkingOthers(rows: seq<OutboxRow>, marked: set<Id>, more: set<Id>)
    requires forall r <- rows :: r.id !in more
    ensures Undispatched(rows, marked + more) == Undispatched(rows, marked)
  {
    if rows != [] {
      assert rows[0].id !in more;
      MarkingOthers(rows[1..], marked, more);
    }
  }

  lemma ElementsCons(x: Id, xs: seq<Id>)
    ensures Elements([x] + xs) == Elements(xs) + {x}
  {
  }

  lemma HeadMarked(rows: seq<OutboxRow>, marked: set<Id>)
    requires rows != [] && rows[0].id in marked
    ensures Undispatched(rows, marked) == Undispatched(rows[1..], marked)
  {
  }

  lemma HeadFirst(rows: seq<OutboxRow>, marked: set<Id>)
    requires rows != [] && rows[0].id !in marked
    ensures Undispatched(rows, marked) == [rows[0].id] + Undispatched(rows[1..], marked)
  {
  }

  /** The head row is the first of the batch: with it marked, the tail's own prefix is left to mark. */
  lemma HeadUnmarked(rows: seq<OutboxRow>, marked: set<Id>, k: nat)
    requires DistinctRows(rows) && rows != [] && rows[0].id !in marked
    requires 0 < k <= |Undispatched(rows, marked)|
    ensures var us := Undispatched(rows, marked); var tail := Undispatched(rows[1..], marked);
      && k - 1 <= |tail| && us[k..] == tail[k - 1..]
      && Undispatched(rows, marked + Elements(us[..k])) == Undispatched(rows[1..], marked + Elements(tail[..k - 1]))
  {
    hide Elements, DistinctRows, Undispatched;
    HeadFirst(rows, marked);
    var us, tail := Undispatched(rows, marked), Undispatched(rows[1..], marked);
    DistinctTail(rows);
    assert us[..k] == [rows[0].id] + tail[..k - 1];
    ElementsCons(rows[0].id, tail[..k - 1]);
    var more := marked + Elements(tail[..k - 1]);
    assert marked + Elements(us[..k]) == more + {rows[0].id};
    HeadMarked(rows, more + {rows[0].id});
    MarkingOthers(rows[1..], more, {rows[0].id});
  }

  /** Marking the first `k` undispatched rows leaves exactly the later ones, in order. */
  lemma {:induction false} MarkingPrefix(rows: seq<OutboxRow>, marked: set<Id>, k: nat)
    requires DistinctRows(rows) && k <= |Undispatched(rows, marked)|
    ensures Undispatched(rows, marked + Elements(Undispatched(rows, marked)[..k])) == Undispatched(rows, marked)[k..]
  {
    var us := Undispatched(rows, marked);
    if k == 0 {
      NoElements(us);
      assert marked + {} == marked;
    } else {
      hide Elements, Undispatched, DistinctRows;
      NothingUndispatched(rows, marked);
      DistinctTail(rows);
      if rows[0].id in marked {
        HeadMarked(rows, marked);
        HeadMarked(rows, marked + Elements(us[..k]));
        MarkingPrefix(rows[1..], marked, k);
      } else {
        HeadUnmarked(rows, marked, k);
        MarkingPrefix(rows[1..], marked, k - 1);
      }
    }
  }

  lemma NothingUndispatched(rows: seq<OutboxRow>, marked: set<Id>)
    ensures rows == [] ==> Undispatched(rows, marked) == []
  {
  }

  // --- which rows a batch takes -------------------------------------------------------------

  function Unmarked(marked: set<Id>): OutboxRow -> int { (r: OutboxRow) => if r.id in marked then 0 else 1 }

  /** The ids stand at these positions of the outbox, in order, and are not marked. */
  ghost predicate StandAt(rows: seq<OutboxRow>, marked: set<Id>, idx: seq<nat>, ids: seq<Id>) {
    && |idx| == |ids|
    && (forall k | 0 <= k < |idx| :: idx[k] < |rows| && rows[idx[k]].id == ids[k] && ids[k] !in marked)
    && forall a, b | 0 <= a < b < |idx| :: idx[a] < idx[b]
  }

  /** Every unmarked row among the first `n` is there. */
  ghost predicate NoneMissed(rows: seq<OutboxRow>, marked: set<Id>, idx: seq<nat>, n: nat) {
    && n <= |rows| && (forall k <- idx :: k < n)
    && forall i: nat | i < n && rows[i].id !in marked :: i in idx
  }

  /** The first `size` unmarked rows in the order they were appended, or all of them if there are fewer. */
  ghost predicate OldestUnmarked(rows: seq<OutboxRow>, marked: set<Id>, size: nat, ids: seq<Id>) {
    && |ids| == Least(size, Total(rows, Unmarked(marked)))
    && exists idx, n :: StandAt(rows, marked, idx, ids) && NoneMissed(rows, marked, idx, n)
  }

  lemma UnmarkedCount(rows: seq<OutboxRow>, marked: set<Id>, n: nat)
    requires n <= |rows|
    ensures 0 <= Total(rows[..n], Unmarked(marked)) <= Total(rows, Unmarked(marked))
  {
    assert rows == rows[..n] + rows[n..];
    TotalConcat(rows[..n], rows[n..], Unmarked(marked));
    TotalNonNegative(rows[..n], Unmarked(marked));
    TotalNonNegative(rows[n..], Unmarked(marked));
  }

  /** One more row looked at. */
  lemma LookAt(rows: seq<OutboxRow>, marked: set<Id>, idx: seq<nat>, ids: seq<Id>, i: nat)
    requires i < |rows| && StandAt(rows, marked, idx, ids) && NoneMissed(rows, marked, idx, i)
    ensures Total(rows[..i + 1], Unmarked(marked)) == Total(rows[..i], Unmarked(marked)) + Unmarked(marked)(rows[i])
    ensures if rows[i].id in marked then NoneMissed(rows, marked, idx, i + 1)
      else StandAt(rows, marked, idx + [i], ids + [rows[i].id]) && NoneMissed(rows, marked, idx + [i], i + 1)
  {
    assert rows[..i + 1] == rows[..i] + [rows[i]];
    TotalSnoc(rows[..i], rows[i], Unmarked(marked));
    assert forall k | 0 <= k < |idx| :: idx[k] in idx;
    if rows[i].id !in marked {
      var more := idx + [i];
      forall k: nat | k < i + 1 && rows[k].id !in marked ensures k in more {
        if k < i { assert k in idx; } else { assert more[|idx|] == k; }
      }
    }
  }

  /** A batch that takes fewer than all unmarked rows is full. */
  lemma ShortBatchTakesAll(rows: seq<OutboxRow>, marked: set<Id>, size: nat, ids: seq<Id>)
    requires OldestUnmarked(rows, marked, size, ids) && Total(rows, Unmarked(marked)) <= size
    ensures forall r <- rows :: r.id in marked || r.id in ids
  {
    var idx, n :| StandAt(rows, marked, idx, ids) && NoneMissed(rows, marked, idx, n);
    PickedCount(rows, marked, idx, ids);
    forall r | r in rows ensures r.id in marked || r.id in ids {
      var i :| 0 <= i < |rows| && rows[i] == r;
      if r.id !in marked && i !in idx {
        SomeoneMissed(rows, marked, idx, ids, i);
      }
      if i in idx {
        var k :| 0 <= k < |idx| && idx[k] == i;
        assert ids[k] in ids;
      }
    }
  }

  /** Rows at distinct unmarked positions are no more than there are. */
  lemma {:induction false} PickedCount(rows: seq<OutboxRow>, marked: set<Id>, idx: seq<nat>, ids: seq<Id>)
    requires StandAt(rows, marked, idx, ids)
    ensures |idx| <= Total(rows, Unmarked(marked))
    decreases |rows|
  {
    if rows == [] {
    } else {
      var n := |rows| - 1;
      var rest := rows[..n];
      assert rows == rest + [rows[n]];
      TotalSnoc(rest, rows[n], Unmarked(marked));
      if idx != [] && idx[|idx| - 1] == n {
        PickedCount(rest, marked, idx[..|idx| - 1], ids[..|idx| - 1]);
      } else {
        PickedCount(rest, marked, idx, ids);
      }
    }
  }

  lemma {:induction false} SomeoneMissed(rows: seq<OutboxRow>, marked: set<Id>, idx: seq<nat>, ids: seq<Id>, i: nat)
    requires StandAt(rows, marked, idx, ids) && i < |rows| && rows[i].id !in marked && i !in idx
    ensures |idx| < Total(rows, Unmarked(marked))
    decreases |rows|
  {
    var n := |rows| - 1;
    var rest := rows[..n];
    assert rows == rest + [rows[n]];
    TotalSnoc(rest, rows[n], Unmarked(marked));
    if idx != [] && idx[|idx| - 1] == n {
      SomeoneMissed(rest, marked, idx[..|idx| - 1], ids[..|idx| - 1], i);
    } else if i == n {
      PickedCount(rest, marked, idx, ids);
    } else {
      SomeoneMissed(rest, marked, idx, ids, i);
    }
  }

  /** Where a relay run stops with an error: adding or marking row `at`. */
  datatype Fault = Fault(at: nat, afterAdd: bool)

  /** The rows that end up marked, in a batch of `n`. */
  function MarkedCount(n: nat, fault: Option<Fault>): nat {
    if fault.Some? && fault.value.at < n then fault.value.at else n
  }

  /**
   * A batch of the oldest unmarked rows was relayed: all of it, or up to the error, which leaves the
   * row it hit unmarked and queued or not.
   */
  ghost predicate Relayed(
    rows: seq<OutboxRow>, size: nat, fault: Option<Fault>, marked: set<Id>, queue: set<Id>, marked': set<Id>, queue': set<Id>,
    count: nat)
  {
    exists ids :: OldestUnmarked(rows, marked, size, ids) && RelayedBatch(ids, fault, marked, queue, marked', queue', count)
  }

  ghost predicate RelayedBatch(
    ids: seq<Id>, fault: Option<Fault>, marked: set<Id>, queue: set<Id>, marked': set<Id>, queue': set<Id>, count: nat)
  {
    if fault.Some? && fault.value.at < |ids| then
      var at := fault.value.at; var added := if fault.value.afterAdd then at + 1 else at;
      && count == 0
      && marked' == marked + (set e | e in ids[..at])
      && queue' == queue + (set e | e in ids[..added])
    else
      && count == |ids|
      && marked' == marked + (set e | e in ids)
      && queue' == queue + (set e | e in ids)
  }

  lemma BatchMarked(rows: seq<OutboxRow>, marked: set<Id>, size: nat, i: nat)
    requires DistinctRows(rows) && i <= |Batch(rows, marked, size)|
    ensures Undispatched(rows, marked + Elements(Batch(rows, marked, size)[..i])) == Undispatched(rows, marked)[i..]
  {
    MarkingPrefix(rows, marked, i);
    assert Batch(rows, marked, size)[..i] == Undispatched(rows, marked)[..i];
  }

  lemma UndispatchedFrom(rows: seq<OutboxRow>, marked: set<Id>, i: nat)
    requires i < |rows|
    ensures Undispatched(rows[i..], marked)
      == (if rows[i].id in marked then [] else [rows[i].id]) + Undispatched(rows[i + 1..], marked)
  {
    assert rows[i..][1..] == rows[i + 1..];
  }

  lemma UndispatchedEnd(rows: seq<OutboxRow>, marked: set<Id>)
    ensures Undispatched(rows[|rows|..], marked) == []
  {
  }

  lemma NothingTaken(rows: seq<OutboxRow>, marked: set<Id>)
    ensures StandAt(rows, marked, [], []) && NoneMissed(rows, marked, [], 0)
  {
  }

  lemma CountOne(r: OutboxRow, marked: set<Id>)
    ensures Unmarked(marked)(r) == if r.id in marked then 0 else 1
  {
  }

  lemma BatchRelayed(
    rows: seq<OutboxRow>, size: nat, ids: seq<Id>, fault: Option<Fault>, marked: set<Id>, queue: set<Id>,
    marked': set<Id>, queue': set<Id>, i: nat)
    requires OldestUnmarked(rows, marked, size, ids) && i == MarkedCount(|ids|, fault)
    requires marked' == marked + Elements(ids[..i])
    requires queue' == queue + Elements(ids[..if i < |ids| && fault.value.afterAdd then i + 1 else i])
    ensures Relayed(rows, size, fault, marked, queue, marked', queue', if i == |ids| then i else 0)
    ensures |ids| == Least(size, Total(rows, Unmarked(marked)))
    ensures i == |ids| && Total(rows, Unmarked(marked)) <= size ==> forall r <- rows :: r.id in marked'
  {
    assert ids[..|ids|] == ids;
    assert RelayedBatch(ids, fault, marked, queue, marked', queue', if i == |ids| then i else 0);
    if Total(rows, Unmarked(marked)) <= size { ShortBatchTakesAll(rows, marked, size, ids); }
  }

  class OutboxRelay {
    var rows: seq<OutboxRow>
    var marked: set<Id>
    var queue: set<Id>
    var running: bool

    constructor ()
      ensures rows == [] && marked == {} && queue == {} && !running
    {
      rows, marked, queue, running := [], {}, {}, false;
    }

    /** Appends one event row; the id is the primary key. */
    method Write(id: Id, eventType: string) returns (r: Result<()>)
      modifies this`rows
      ensures r.Ok? <==> forall row <- old(rows) :: row.id != id
      ensures rows == if r.Ok? then old(rows) + [OutboxRow(id, eventType)] else old(rows)
      ensures r.Err? ==> r.error == UniqueViolation
      ensures old(DistinctRows(rows)) ==> DistinctRows(rows)
    {
      if exists row <- rows :: row.id == id { return Err(UniqueViolation); }
      rows := rows + [OutboxRow(id, eventType)];
      return Ok(());
    }

    method FindPending(size: nat) returns (pending: seq<Id>)
      ensures OldestUnmarked(rows, marked, size, pending)
      ensures pending == Batch(rows, marked, size)
    {
      hide StandAt, NoneMissed, Unmarked, Undispatched;
      pending := [];
      ghost var idx: seq<nat> := [];
      var i := 0;
      NothingTaken(rows, marked);
      assert rows[0..] == rows;
      while i < |rows| && |pending| < size
        invariant 0 <= i <= |rows| && |pending| <= size
        invariant Undispatched(rows, marked) == pending + Undispatched(rows[i..], marked)
        invariant StandAt(rows, marked, idx, pending) && NoneMissed(rows, marked, idx, i)
        invariant |pending| == Total(rows[..i], Unmarked(marked))
      {
        UndispatchedFrom(rows, marked, i);
        LookAt(rows, marked, idx, pending, i);
        CountOne(rows[i], marked);
        if rows[i].id !in marked {
          pending := pending + [rows[i].id];
          idx := idx + [i];
        }
        i := i + 1;
      }
      if i == |rows| {
        UndispatchedEnd(rows, marked);
        assert rows[..i] == rows;
      }
      UnmarkedCount(rows, marked, i);
    }

    /**
     * Relays one batch, oldest first. A run already under way makes this one a no-op. Each row is
     * enqueued before it is marked, so an error leaves at most one row enqueued and not marked; the
     * flag is cleared in every case.
     */
    method DispatchPending(batchSize: nat, fault: Option<Fault>) returns (count: nat)
      requires DistinctRows(rows)
      modifies this`marked, this`queue, this`running
      ensures old(running) ==> count == 0 && marked == old(marked) && queue == old(queue) && running
      ensures !old(running) ==>
        && !running
        && Relayed(rows, batchSize, fault, old(marked), old(queue), marked, queue, count)
        && (fault.None? ==> count == Least(batchSize, Total(rows, Unmarked(old(marked)))))
        && (fault.None? && Total(rows, Unmarked(old(marked))) <= batchSize ==> forall r <- rows :: r.id in marked)
        && Undispatched(rows, marked)
           == Undispatched(rows, old(marked))[MarkedCount(Least(batchSize, |Undispatched(rows, old(marked))|), fault)..]
    {
      hide DistinctRows, Undispatched, Elements, OldestUnmarked;
      if running { return 0; }
      running := true;
      var pending := FindPending(batchSize);
      NoElements(pending);
      var i := 0;
      while i < |pending|
        invariant 0 <= i <= |pending|
        invariant i <= MarkedCount(|pending|, fault)
        invariant queue == old(queue) + Elements(pending[..i])
        invariant marked == old(marked) + Elements(pending[..i])
      {
        ElementsGrow(pending, i);
        if fault.Some? && fault.value == Fault(i, false) { break; }
        queue := queue + {pending[i]};
        if fault.Some? && fault.value == Fault(i, true) { break; }
        marked := marked + {pending[i]};
        i := i + 1;
      }
      BatchMarked(rows, old(marked), batchSize, i);
      running := false;
      count := if i == |pending| then i else 0;
      BatchRelayed(rows, batchSize, pending, fault, old(marked), old(queue), marked, queue, i);
    }
  }

  // --- the registry of handlers -------------------------------------------------------------

  datatype Handler = Handler(name: Id, eventTypes: seq<string>)

  function Times(name: Id, n: nat): seq<Id>
    decreases n
  {
    if n == 0 then [] else Times(name, n - 1) + [name]
  }

  /** The handlers that should see an event type, in registration order. */
  function Wanted(hs: seq<Handler>, eventType: string): seq<Id>
    decreases |hs|
  {
    if hs == [] then []
    else
      var h := hs[|hs| - 1];
      Wanted(hs[..|hs| - 1], eventType) + Times(h.name, multiset(h.eventTypes)[eventType])
  }

  /** `name` was pushed once for every listed type. */
  ghost predicate Extended(before: Registry, after: Registry, name: Id, types: seq<string>) {
    forall t: string :: HandlersFor(after, t) == HandlersFor(before, t) + Times(name, multiset(types)[t])
  }

  lemma NotExtended(m: Registry, name: Id)
    ensures Extended(m, m, name, [])
  {
  }

  lemma LookupUpdated(m: Registry, x: string, list: seq<Id>, t: string)
    ensures HandlersFor(m[x := list], t) == if t == x then list else HandlersFor(m, t)
  {
  }

  lemma ExtendAt(before: seq<Id>, after: seq<Id>, now: seq<Id>, name: Id, types: seq<string>, x: string, t: string)
    requires after == before + Times(name, multiset(types)[t])
    requires now == if t == x then after + [name] else after
    ensures now == before + Times(name, multiset(types + [x])[t])
  {
    hide Times;
    CountGrows(types, x, t);
    TimesGrows(before, name, multiset(types)[t]);
  }

  lemma ExtendOne(before: Registry, after: Registry, name: Id, types: seq<string>, x: string)
    requires Extended(before, after, name, types)
    ensures Extended(before, after[x := HandlersFor(after, x) + [name]], name, types + [x])
  {
    hide HandlersFor, Times;
    var list := HandlersFor(after, x) + [name];
    forall t: string
      ensures HandlersFor(after[x := list], t) == HandlersFor(before, t) + Times(name, multiset(types + [x])[t])
    {
      LookupUpdated(after, x, list, t);
      ExtendAt(HandlersFor(before, t), HandlersFor(after, t), HandlersFor(after[x := list], t), name, types, x, t);
    }
  }

  lemma CountGrows(types: seq<string>, x: string, t: string)
    ensures multiset(types + [x])[t] == multiset(types)[t] + if t == x then 1 else 0
  {
  }

  lemma TimesGrows(list: seq<Id>, name: Id, n: nat)
    ensures list + Times(name, n) + [name] == list + Times(name, n + 1)
  {
  }

  class EventRegistry {
    var byType: Registry
    ghost var registered: seq<Handler>

    ghost predicate Valid()
      reads this
    {
      forall t :: HandlersFor(byType, t) == Wanted(registered, t)
    }

    constructor ()
      ensures Valid() && registered == []
    {
      byType, registered := map[], [];
    }

    /** Pushes the handler onto the list of each of its event types. */
    method Register(handler: Handler)
      requires Valid()
      modifies this
      ensures Valid() && registered == old(registered) + [handler]
    {
      var types := handler.eventTypes;
      NotExtended(byType, handler.name);
      for i := 0 to |types|
        invariant registered == old(registered)
        invariant Extended(old(byType), byType, handler.name, types[..i])
      {
        assert types[..i + 1] == types[..i] + [types[i]];
        ExtendOne(old(byType), byType, handler.name, types[..i], types[i]);
        var list := HandlersFor(byType, types[i]);
        byType := byType[types[i] := list + [handler.name]];
      }
      assert types[..|types|] == types;
      registered := registered + [handler];
      assert registered[..|registered| - 1] == old(registered);
    }

    method Lookup(eventType: string) returns (hs: seq<Id>)
      requires Valid()
      ensures hs == Wanted(registered, eventType)
    {
      return if eventType in byType then byType[eventType] else [];
    }
  }

  ghost predicate DistinctHandlers(hs: seq<Handler>) {
    && (forall i, j | 0 <= i < j < |hs| :: hs[i].name != hs[j].name)
    && forall h <- hs, t :: multiset(h.eventTypes)[t] <= 1
  }

  lemma {:induction false} WantedMembers(hs: seq<Handler>, t: string)
    ensures forall n :: n in Wanted(hs, t) <==> exists h <- hs :: h.name == n && t in h.eventTypes
  {
    if hs != [] {
      var last := |hs| - 1;
      WantedMembers(hs[..last], t);
      TimesMembers(hs[last].name, multiset(hs[last].eventTypes)[t]);
      assert hs == hs[..last] + [hs[last]];
      assert t in hs[last].eventTypes <==> t in multiset(hs[last].eventTypes);
    }
  }

  lemma {:induction false} TimesMembers(name: Id, n: nat)
    ensures forall x :: x in Times(name, n) <==> n > 0 && x == name
    decreases n
  {
    if n > 0 { TimesMembers(name, n - 1); }
  }

  /** `x` stands before `y`. */
  ghost predicate InOrder(xs: seq<Id>, x: Id, y: Id) {
    exists a, b | 0 <= a < b < |xs| :: xs[a] == x && xs[b] == y
  }

  /** Of two handlers that want a type, the one registered first is run first. */
  lemma {:induction false} WantedInOrder(hs: seq<Handler>, t: string, i: nat, j: nat)
    requires i < j < |hs| && t in hs[i].eventTypes && t in hs[j].eventTypes
    ensures InOrder(Wanted(hs, t), hs[i].name, hs[j].name)
    decreases |hs|
  {
    var last := |hs| - 1;
    var before, own := Wanted(hs[..last], t), Times(hs[last].name, multiset(hs[last].eventTypes)[t]);
    if j < last {
      WantedInOrder(hs[..last], t, i, j);
      var a, b :| 0 <= a < b < |before| && before[a] == hs[i].name && before[b] == hs[j].name;
      assert Wanted(hs, t)[a] == hs[i].name && Wanted(hs, t)[b] == hs[j].name;
    } else {
      WantedMembers(hs[..last], t);
      assert hs[..last][i] == hs[i] && hs[..last][i] in hs[..last];
      assert hs[i].name in before;
      var a :| 0 <= a < |before| && before[a] == hs[i].name;
      assert t in multiset(hs[last].eventTypes);
      TimesMembers(hs[last].name, multiset(hs[last].eventTypes)[t]);
      assert own != [] && own[0] == hs[last].name by { assert hs[last].name in own; assert own[0] in own; }
      assert Wanted(hs, t)[a] == hs[i].name && Wanted(hs, t)[|before|] == hs[j].name;
    }
  }

  /**
   * Handlers with stable unique names, each listing a type at most once, are seen exactly once per
   * event of that type: the list a delivery walks has no repetition and misses nobody.
   */
  lemma {:induction false} WantedDistinct(hs: seq<Handler>, t: string)
    requires DistinctHandlers(hs)
    ensures forall i, j | 0 <= i < j < |Wanted(hs, t)| :: Wanted(hs, t)[i] != Wanted(hs, t)[j]
    ensures forall n :: n in Wanted(hs, t) <==> exists h <- hs :: h.name == n && t in h.eventTypes
  {
    WantedMembers(hs, t);
    if hs != [] {
      var last := |hs| - 1;
      var h := hs[last];
      WantedDistinct(hs[..last], t);
      assert h in hs && multiset(h.eventTypes)[t] <= 1;
      assert Times(h.name, 1) == Times(h.name, 0) + [h.name] == [h.name];
      assert h.name !in Wanted(hs[..last], t);
    }
  }
}
