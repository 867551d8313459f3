/** The in-memory job scheduler. Its map of stamped entries refines a plain plan: the
    waiting jobs in order of their latest scheduling, each with its current priority. */
module Schedules {
  import opened Jobs

  // ---- The plan ----

  datatype Plan = Plan(order: seq<string>, priority: map<string, int>)

  const EMPTY := Plan([], map[])

  ghost predicate Earlier(q: seq<string>, a: string, b: string) {
    exists i, k :: 0 <= i < k < |q| && q[i] == a && q[k] == b
  }

  function Without(q: seq<string>, id: string): seq<string> {
    if q == [] then [] else (if q[0] == id then [] else [q[0]]) + Without(q[1..], id)
  }

  datatype Event = Schedule(id: string, priority: int) | Cancel(id: string)
      | Reprioritize(id: string, priority: int) | Drain

  /** Scheduling is refused only for a new job on a full plan; a capacity of 0 or less is no bound. */
  predicate Accepts(capacity: int, p: Plan, id: string) {
    id in p.priority || capacity <= 0 || |p.priority| < capacity
  }

  function Next(capacity: int, p: Plan, e: Event): Plan {
    match e
    case Schedule(id, n) =>
      if Accepts(capacity, p, id) then Plan(Without(p.order, id) + [id], p.priority[id := n]) else p
    case Cancel(id) => Plan(Without(p.order, id), p.priority - {id})
    case Reprioritize(id, n) => if id in p.priority then p.(priority := p.priority[id := n]) else p
    case Drain => EMPTY
  }

  function After(capacity: int, h: seq<Event>): Plan {
    if h == [] then EMPTY else Next(capacity, After(capacity, h[..|h| - 1]), h[|h| - 1])
  }

  /** The order a drain returns: higher priority first, then the earlier scheduling. */
  ghost predicate Before(p: Plan, a: string, b: string)
    requires a in p.priority && b in p.priority
  {
    p.priority[a] > p.priority[b] || (p.priority[a] == p.priority[b] && Earlier(p.order, a, b))
  }

  ghost predicate Drains(p: Plan, r: seq<string>) {
    && (forall id :: id in r <==> id in p.priority)
    && (forall i, k :: 0 <= i < k < |r| ==> r[i] != r[k] && Before(p, r[i], r[k]))
  }

  ghost predicate Sound(p: Plan) {
    && (forall id :: id in p.order <==> id in p.priority)
    && (forall i, k :: 0 <= i < k < |p.order| ==> p.order[i] != p.order[k])
  }

  lemma {:induction false} WithoutMembers(q: seq<string>, id: string)
    ensures forall a :: a in Without(q, id) <==> a in q && a != id
  {
    if q != [] {
      WithoutMembers(q[1..], id);
      assert q == [q[0]] + q[1..];
    }
  }

  lemma {:induction false} EarlierCons(x: string, q: seq<string>, a: string, b: string)
    ensures Earlier([x] + q, a, b) <==> (a == x && b in q) || Earlier(q, a, b)
  {
    var xq := [x] + q;
    if i, k :| 0 <= i < k < |xq| && xq[i] == a && xq[k] == b {
      assert q[k - 1] == b;
      if i > 0 {
        assert q[i - 1] == a;
      }
    }
    if a == x && b in q {
      var k :| 0 <= k < |q| && q[k] == b;
      assert xq[0] == a && xq[k + 1] == b;
    }
    if i, k :| 0 <= i < k < |q| && q[i] == a && q[k] == b {
      assert xq[i + 1] == a && xq[k + 1] == b;
    }
  }

  lemma {:induction false} EarlierAppend(q: seq<string>, x: string, a: string, b: string)
    ensures Earlier(q + [x], a, b) <==> Earlier(q, a, b) || (a in q && b == x)
  {
    var qx := q + [x];
    if i, k :| 0 <= i < k < |qx| && qx[i] == a && qx[k] == b {
      assert q[i] == a;
    }
    if a in q && b == x {
      var i :| 0 <= i < |q| && q[i] == a;
      assert qx[i] == a && qx[|q|] == x;
    }
    if i, k :| 0 <= i < k < |q| && q[i] == a && q[k] == b {
      assert qx[i] == a && qx[k] == b;
    }
  }

  /** Taking a job out keeps the others in order. */
  lemma {:induction false} WithoutEarlier(q: seq<string>, id: string, a: string, b: string)
    ensures Earlier(Without(q, id), a, b) <==> Earlier(q, a, b) && a != id && b != id
  {
    if q != [] {
      assert q == [q[0]] + q[1..];
      WithoutEarlier(q[1..], id, a, b);
      WithoutMembers(q[1..], id);
      EarlierCons(q[0], q[1..], a, b);
      EarlierCons(q[0], Without(q[1..], id), a, b);
      assert q[0] == id ==> Without(q, id) == Without(q[1..], id);
    }
  }

  lemma {:induction false} WithoutDistinct(q: seq<string>, id: string)
    requires forall i, k :: 0 <= i < k < |q| ==> q[i] != q[k]
    ensures forall i, k :: 0 <= i < k < |Without(q, id)| ==> Without(q, id)[i] != Without(q, id)[k]
  {
    var r := Without(q, id);
    forall i, k | 0 <= i < k < |r|
      ensures r[i] != r[k]
    {
      assert Earlier(r, r[i], r[k]);
      WithoutEarlier(q, id, r[i], r[k]);
    }
  }

  // ---- Every history of calls ----

  lemma {:induction false} SoundNext(capacity: int, p: Plan, e: Event)
    requires Sound(p) && (capacity > 0 ==> |p.priority| <= capacity)
    ensures Sound(Next(capacity, p, e))
    ensures capacity > 0 ==> |Next(capacity, p, e).priority| <= capacity
  {
    if !e.Drain? {
      WithoutMembers(p.order, e.id);
      WithoutDistinct(p.order, e.id);
      assert (p.priority - {e.id}).Keys == p.priority.Keys - {e.id};
      if e.Schedule? {
        assert p.priority[e.id := e.priority].Keys == p.priority.Keys + {e.id};
      }
    }
  }

  /** A positive capacity is never exceeded, and the plan never names a job twice. */
  lemma {:induction false} AfterSound(capacity: int, h: seq<Event>)
    ensures Sound(After(capacity, h))
    ensures capacity > 0 ==> |After(capacity, h).priority| <= capacity
  {
    if h != [] {
      AfterSound(capacity, h[..|h| - 1]);
      SoundNext(capacity, After(capacity, h[..|h| - 1]), h[|h| - 1]);
    }
  }

  /** The position in the history of the latest accepted scheduling of a job, or -1. */
  function Latest(capacity: int, h: seq<Event>, id: string): int {
    if h == [] then -1
    else
      var n, e := |h| - 1, h[|h| - 1];
      if e.Schedule? && e.id == id && Accepts(capacity, After(capacity, h[..n]), id) then n
          else Latest(capacity, h[..n], id)
  }

  /** The priority the latest accepted scheduling or later change gave to a waiting job. */
  function Current(capacity: int, h: seq<Event>, id: string): int {
    if h == [] then 0
    else
      var n, e := |h| - 1, h[|h| - 1];
      var p := After(capacity, h[..n]);
      if (e.Schedule? && e.id == id && Accepts(capacity, p, id)) || (e.Reprioritize? && e.id == id && id in p.priority)
      then e.priority
      else Current(capacity, h[..n], id)
  }

  lemma {:induction false} LatestInHistory(capacity: int, h: seq<Event>, id: string)
    ensures -1 <= Latest(capacity, h, id) < |h|
  {
    if h != [] {
      LatestInHistory(capacity, h[..|h| - 1], id);
    }
  }

  /** Waiting jobs stand in the order of their latest accepted scheduling, each at its
      current priority. */
  lemma {:induction false} OrderIsRecency(capacity: int, h: seq<Event>, a: string, b: string)
    requires a in After(capacity, h).priority && b in After(capacity, h).priority
    ensures After(capacity, h).priority[a] == Current(capacity, h, a)
    ensures Earlier(After(capacity, h).order, a, b) <==> Latest(capacity, h, a) < Latest(capacity, h, b)
  {
    var n := |h| - 1;
    var p, e := After(capacity, h[..n]), h[n];
    AfterSound(capacity, h[..n]);
    LatestInHistory(capacity, h[..n], a);
    LatestInHistory(capacity, h[..n], b);
    if e.Schedule? && Accepts(capacity, p, e.id) {
      WithoutMembers(p.order, e.id);
      WithoutEarlier(p.order, e.id, a, b);
      EarlierAppend(Without(p.order, e.id), e.id, a, b);
      if a == e.id && b == e.id {
      } else if a == e.id {
        OrderIsRecency(capacity, h[..n], b, b);
      } else if b == e.id {
        OrderIsRecency(capacity, h[..n], a, a);
      } else {
        OrderIsRecency(capacity, h[..n], a, b);
      }
    } else {
      if e.Cancel? {
        WithoutEarlier(p.order, e.id, a, b);
      }
      OrderIsRecency(capacity, h[..n], a, b);
    }
  }

  // ---- Draining is determined by the plan ----

  lemma {:induction false} EarlierAntisymmetric(p: Plan, a: string, b: string)
    requires Sound(p) && a in p.order && b in p.order
    ensures Earlier(p.order, a, b) <==> a != b && !Earlier(p.order, b, a)
  {
    var i :| 0 <= i < |p.order| && p.order[i] == a;
    var k :| 0 <= k < |p.order| && p.order[k] == b;
    forall x, y | 0 <= x < |p.order| && 0 <= y < |p.order| && p.order[x] == a && p.order[y] == b
      ensures x == i && y == k
    {
    }
  }

  lemma {:induction false} SomeMember(q: seq<string>)
    ensures q == [] || exists x :: x in q
  {
    if q != [] {
      assert q[0] in q;
    }
  }

  /** Two sequences of the same jobs in drain order are the same: what Drain returns does
      not depend on how the entries are collected or sorted. */
  lemma {:induction false} DrainUnique(p: Plan, r: seq<string>, q: seq<string>)
    requires Sound(p)
    requires forall id :: id in r <==> id in q
    requires forall id :: id in r ==> id in p.priority
    requires forall i, k :: 0 <= i < k < |r| ==> r[i] != r[k] && Before(p, r[i], r[k])
    requires forall i, k :: 0 <= i < k < |q| ==> q[i] != q[k] && Before(p, q[i], q[k])
    ensures r == q
  {
    if r == [] {
      SomeMember(q);
    } else {
      assert r[0] in q;
      var m :| 0 <= m < |q| && q[m] == r[0];
      assert q[0] in r;
      var n :| 0 <= n < |r| && r[n] == q[0];
      assert m == 0 || Before(p, q[0], r[0]);
      assert n == 0 || Before(p, r[0], q[0]);
      EarlierAntisymmetric(p, r[0], q[0]);
      forall id
        ensures id in r[1..] <==> id in q[1..]
      {
        assert id in r[1..] <==> id in r && id != r[0];
        assert id in q[1..] <==> id in q && id != q[0];
      }
      DrainUnique(p, r[1..], q[1..]);
      assert r == [r[0]] + r[1..] && q == [q[0]] + q[1..];
    }
  }

  // ---- The scheduler ----

  datatype Entry = Entry(jobId: string, priority: int, stamp: nat)

  /** The comparison the entries are sorted by. */
  predicate Less(x: Entry, y: Entry) {
    if x.priority != y.priority then x.priority > y.priority else x.stamp < y.stamp
  }

  predicate Sorted(es: seq<Entry>) {
    forall i, k :: 0 <= i < k < |es| ==> Less(es[i], es[k])
  }

  /** Puts entries with distinct stamps in order, one at a time. */
  method Sort(es: seq<Entry>) returns (r: seq<Entry>)
    requires forall i, k :: 0 <= i < k < |es| ==> es[i].stamp != es[k].stamp
    ensures Sorted(r) && forall e :: e in r <==> e in es
  {
    r := [];
    for n := 0 to |es|
      invariant Sorted(r) && forall e :: e in r <==> e in es[..n]
    {
      var at := 0;
      while at < |r| && Less(r[at], es[n])
        invariant 0 <= at <= |r|
        invariant forall i :: 0 <= i < at ==> Less(r[i], es[n])
      {
        at := at + 1;
      }
      assert at < |r| ==> Less(es[n], r[at]) by {
        if at < |r| {
          assert r[at] in es[..n];
        }
      }
      assert es[..n + 1] == es[..n] + [es[n]];
      ghost var was := r;
      r := r[..at] + [es[n]] + r[at..];
      assert forall e :: e in r <==> e in was || e == es[n];
    }
    assert es[..|es|] == es;
  }

  /** Stamps grow along the order. */
  ghost predicate Stamped(order: seq<string>, entries: map<string, Entry>) {
    forall a, b :: a in entries && b in entries && Earlier(order, a, b) ==> entries[a].stamp < entries[b].stamp
  }

  ghost function PlanOf(order: seq<string>, entries: map<string, Entry>): Plan {
    Plan(order, map id | id in entries :: entries[id].priority)
  }

  ghost predicate Consistent(order: seq<string>, entries: map<string, Entry>, stamp: nat, capacity: int) {
    && Sound(PlanOf(order, entries))
    && (forall id :: id in entries ==> entries[id].jobId == id && entries[id].stamp <= stamp)
    && Stamped(order, entries)
    && (capacity > 0 ==> |entries| <= capacity)
  }

  lemma {:induction false} PlanSize(order: seq<string>, entries: map<string, Entry>)
    ensures |PlanOf(order, entries).priority| == |entries|
  {
    assert PlanOf(order, entries).priority.Keys == entries.Keys;
  }

  lemma {:induction false} StampedCancel(order: seq<string>, entries: map<string, Entry>, id: string)
    requires Stamped(order, entries)
    ensures Stamped(Without(order, id), entries - {id})
  {
    forall a, b | Earlier(Without(order, id), a, b)
      ensures Earlier(order, a, b)
    {
      WithoutEarlier(order, id, a, b);
    }
  }

  lemma {:induction false} StampedSchedule(order: seq<string>, entries: map<string, Entry>, id: string, e: Entry)
    requires Stamped(order, entries)
    requires forall a :: a in entries ==> entries[a].stamp < e.stamp
    ensures Stamped(Without(order, id) + [id], entries[id := e])
  {
    WithoutMembers(order, id);
    forall a, b | Earlier(Without(order, id) + [id], a, b)
      ensures a != id && (b == id || Earlier(order, a, b))
    {
      EarlierAppend(Without(order, id), id, a, b);
      WithoutEarlier(order, id, a, b);
    }
  }

  lemma {:induction false} ScheduleRefines(order: seq<string>, entries: map<string, Entry>, stamp: nat,
                                           capacity: int, e: Entry)
    requires Consistent(order, entries, stamp, capacity) && e.stamp == stamp + 1
    requires Accepts(capacity, PlanOf(order, entries), e.jobId)
    ensures Consistent(Without(order, e.jobId) + [e.jobId], entries[e.jobId := e], stamp + 1, capacity)
    ensures PlanOf(Without(order, e.jobId) + [e.jobId], entries[e.jobId := e])
         == Next(capacity, PlanOf(order, entries), Event.Schedule(e.jobId, e.priority))
  {
    var order', entries' := Without(order, e.jobId) + [e.jobId], entries[e.jobId := e];
    PlanSize(order, entries);
    PlanSize(order', entries');
    assert PlanOf(order', entries').priority == PlanOf(order, entries).priority[e.jobId := e.priority];
    SoundNext(capacity, PlanOf(order, entries), Event.Schedule(e.jobId, e.priority));
    StampedSchedule(order, entries, e.jobId, e);
  }

  lemma {:induction false} CancelRefines(order: seq<string>, entries: map<string, Entry>, stamp: nat, capacity: int,
                                         id: string)
    requires Consistent(order, entries, stamp, capacity)
    ensures Consistent(Without(order, id), entries - {id}, stamp, capacity)
    ensures PlanOf(Without(order, id), entries - {id}) == Next(capacity, PlanOf(order, entries), Event.Cancel(id))
  {
    PlanSize(order, entries);
    PlanSize(Without(order, id), entries - {id});
    assert PlanOf(Without(order, id), entries - {id}).priority == PlanOf(order, entries).priority - {id};
    SoundNext(capacity, PlanOf(order, entries), Event.Cancel(id));
    StampedCancel(order, entries, id);
  }

  class Memory {
    var entries: map<string, Entry>
    var stamp: nat
    const capacity: int
    ghost var order: seq<string>

    ghost function View(): Plan
      reads this
    {
      PlanOf(order, entries)
    }

    ghost predicate Valid()
      reads this
    {
      Consistent(order, entries, stamp, capacity)
    }

    constructor (capacity: int)
      ensures Valid() && this.capacity == capacity && View() == EMPTY
    {
      this.capacity := capacity;
      entries, stamp, order := map[], 0, [];
    }

    /** Records the job behind every other of its priority. Retry does the same. */
    method Schedule(j: Job) returns (ok: bool)
      requires Valid()
      modifies this
      ensures Valid()
      ensures ok == Accepts(capacity, old(View()), j.id)
      ensures View() == Next(capacity, old(View()), Event.Schedule(j.id, j.priority))
    {
      ghost var accepts := Accepts(capacity, View(), j.id);
      assert accepts == (j.id in entries || capacity <= 0 || |entries| < capacity) by { PlanSize(order, entries); }
      if j.id !in entries && capacity > 0 && |entries| >= capacity {
        return false;
      }
      var e := Entry(j.id, j.priority, stamp + 1);
      ScheduleRefines(order, entries, stamp, capacity, e);
      stamp, entries, order := stamp + 1, entries[j.id := e], Without(order, j.id) + [j.id];
      return true;
    }

    method Cancel(id: string)
      requires Valid()
      modifies this
      ensures Valid()
      ensures View() == Next(capacity, old(View()), Event.Cancel(id))
    {
      CancelRefines(order, entries, stamp, capacity, id);
      entries := entries - {id};
      order := Without(order, id);
    }

    method Reprioritize(id: string, n: int)
      requires Valid()
      modifies this
      ensures Valid()
      ensures View() == Next(capacity, old(View()), Event.Reprioritize(id, n))
    {
      if id in entries {
        entries := entries[id := entries[id].(priority := n)];
        assert entries.Keys == old(entries).Keys;
        assert View().priority == old(View()).priority[id := n];
      }
    }

    /** Empties the schedule and returns its jobs in drain order, each once. */
    method Drain() returns (ids: seq<string>)
      requires Valid()
      modifies this
      ensures Valid()
      ensures Drains(old(View()), ids)
      ensures View() == Next(capacity, old(View()), Event.Drain)
    {
      var es: seq<Entry> := [];
      var todo := entries.Keys;
      while todo != {}
        invariant todo <= entries.Keys
        invariant forall e :: e in es <==> e.jobId in entries.Keys - todo && entries[e.jobId] == e
        invariant forall i, k :: 0 <= i < k < |es| ==> es[i].stamp != es[k].stamp
        decreases todo
      {
        var id :| id in todo;
        forall e | e in es
          ensures e.stamp != entries[id].stamp
        {
          EarlierAntisymmetric(View(), e.jobId, id);
        }
        todo := todo - {id};
        es := es + [entries[id]];
      }
      es := Sort(es);
      ids := seq(|es|, i requires 0 <= i < |es| => es[i].jobId);
      SortedDrains(View(), entries, es, ids);
      entries, order := map[], [];
      assert View() == EMPTY;
    }
  }

  /** Sorting by priority and stamp gives the drain order. */
  lemma {:induction false} SortedDrains(p: Plan, entries: map<string, Entry>, es: seq<Entry>, ids: seq<string>)
    requires Sound(p) && p == PlanOf(p.order, entries)
    requires forall id :: id in entries ==> entries[id].jobId == id
    requires Stamped(p.order, entries)
    requires Sorted(es) && forall e :: e in es <==> e.jobId in entries && entries[e.jobId] == e
    requires |ids| == |es| && forall i :: 0 <= i < |es| ==> ids[i] == es[i].jobId
    ensures Drains(p, ids)
  {
    forall id
      ensures id in ids <==> id in p.priority
    {
      if id in p.priority {
        assert entries[id] in es;
        var i :| 0 <= i < |es| && es[i] == entries[id];
        assert ids[i] == id;
      }
      if id in ids {
        var i :| 0 <= i < |ids| && ids[i] == id;
        assert es[i] in es;
      }
    }
    forall i, k | 0 <= i < k < |ids|
      ensures ids[i] != ids[k] && Before(p, ids[i], ids[k])
    {
      assert es[i] in es && es[k] in es && Less(es[i], es[k]);
      EarlierAntisymmetric(p, ids[i], ids[k]);
    }
  }
}
