/** The node registry: a local cache over shared cluster records, in which a record
    only ever gives way to a newer one, and the anti-entropy pass that repairs it. */
module NodeRegistry {
  import opened Wrappers

  /** `updatedAt` 0 is the unset time; `body` stands for the fields no rule looks at. */
  datatype Node = Node(id: string, incarnation: nat, updatedAt: int, body: string)

  /** A newer view of the same node: by incarnation, then by update time. */
  predicate Supersedes(n: Node, other: Node) {
    if n.incarnation != other.incarnation then n.incarnation > other.incarnation else n.updatedAt > other.updatedAt
  }

  predicate SameStamp(a: Node, b: Node) {
    a.incarnation == b.incarnation && a.updatedAt == b.updatedAt
  }

  type Cache = map<string, Node>

  function Commit(cache: Cache, n: Node): Cache {
    if n.id in cache && !Supersedes(n, cache[n.id]) then cache else cache[n.id := n]
  }

  function CommitAll(cache: Cache, ns: seq<Node>): Cache {
    if ns == [] then cache else Commit(CommitAll(cache, ns[..|ns| - 1]), ns[|ns| - 1])
  }

  /** No entry has gone back in time (entries may have been dropped or added). */
  ghost predicate Forward(before: Cache, after: Cache) {
    forall id :: id in before && id in after ==> !Supersedes(before[id], after[id])
  }

  /** Whatever the order of commits, an entry is one of the candidates for its id, and
      no candidate is newer. */
  lemma {:induction false} CommitAllNewest(cache: Cache, ns: seq<Node>, id: string)
    ensures id in CommitAll(cache, ns) <==> id in cache || exists i :: 0 <= i < |ns| && ns[i].id == id
    ensures id in CommitAll(cache, ns) ==>
              var kept := CommitAll(cache, ns)[id];
              && ((id in cache && kept == cache[id]) || exists i :: 0 <= i < |ns| && ns[i].id == id && kept == ns[i])
              && (id in cache ==> !Supersedes(cache[id], kept))
              && (forall i :: 0 <= i < |ns| && ns[i].id == id ==> !Supersedes(ns[i], kept))
  {
    if ns != [] {
      var front := ns[..|ns| - 1];
      CommitAllNewest(cache, front, id);
      assert forall i :: 0 <= i < |front| ==> front[i] == ns[i];
      assert ns[|ns| - 1] == ns[|front|];
    }
  }

  /** Commits with distinct stamps converge: any two sequences of the same records, in
      any order and with any repetition, leave the same cache. */
  lemma {:induction false} CommitsConverge(ns: seq<Node>, ns': seq<Node>)
    requires forall n :: n in ns <==> n in ns'
    requires forall a, b :: a in ns && b in ns && a.id == b.id && SameStamp(a, b) ==> a == b
    ensures CommitAll(map[], ns) == CommitAll(map[], ns')
  {
    var c, c' := CommitAll(map[], ns), CommitAll(map[], ns');
    forall id
      ensures id in c <==> id in c'
      ensures id in c ==> c[id] == c'[id]
    {
      CommitAllNewest(map[], ns, id);
      CommitAllNewest(map[], ns', id);
      if i :| 0 <= i < |ns| && ns[i].id == id {
        assert ns[i] in ns';
      }
      if i :| 0 <= i < |ns'| && ns'[i].id == id {
        assert ns'[i] in ns;
      }
      if id in c {
        assert c[id] in ns && c'[id] in ns';
        var j :| 0 <= j < |ns'| && ns'[j] == c[id];
        var k :| 0 <= k < |ns| && ns[k] == c'[id];
        assert !Supersedes(c[id], c'[id]) && !Supersedes(c'[id], c[id]);
      }
    }
  }

  /** A stored record; `Garbled` does not decode. */
  datatype Record = Good(node: Node) | Garbled

  type Records = map<string, Record>

  /** Every record that decodes describes the node it is stored under. */
  predicate WellKeyed(records: Records) {
    forall id :: id in records && records[id].Good? ==> records[id].node.id == id
  }

  /** What the first loop of a refresh does for one roster id. */
  function Pulled(cache: Cache, records: Records, id: string): Cache {
    if id in records && records[id].Good? then Commit(cache, records[id].node) else cache
  }

  /** What the second loop does for one cached id that is off the roster. */
  function Rechecked(cache: Cache, records: Records, id: string): Cache {
    if id in records && records[id].Good? then Commit(cache, records[id].node) else cache - {id}
  }

  /** The cache a whole pass leaves. */
  function Refreshed(cache: Cache, members: set<string>, records: Records): (r: Cache)
    requires WellKeyed(records)
  {
    var good := set id | id in records && records[id].Good?;
    var kept := set id | id in cache.Keys + members &&
                         (if id in members then id in cache || id in good else id in good);
    map id | id in kept ::
      if id in good && (id !in cache || Supersedes(records[id].node, cache[id])) then records[id].node else cache[id]
  }

  /** The shared backend: records by node id, and the roster. */
  class Cluster {
    var records: Records
    var members: set<string>

    constructor ()
      ensures records == map[] && members == {}
    {
      records, members := map[], {};
    }
  }

  /** The node a lookup finds: the cached one, else a decodable backend record. */
  function Known(cache: Cache, records: Records, id: string): Option<Node> {
    if id in cache then Some(cache[id])
    else if id in records && records[id].Good? then Some(records[id].node)
    else None
  }

  class Registry {
    const cluster: Cluster
    var cache: Cache

    constructor (cluster: Cluster)
      ensures this.cluster == cluster && cache == map[]
    {
      this.cluster := cluster;
      cache := map[];
    }

    method CommitNode(n: Node)
      modifies this`cache
      ensures cache == Commit(old(cache), n)
      ensures Forward(old(cache), cache) && old(cache.Keys) <= cache.Keys
      ensures n.id in cache && !Supersedes(n, cache[n.id])
    {
      if n.id in cache && !Supersedes(n, cache[n.id]) {
        return;
      }
      cache := cache[n.id := n];
    }

    /** Writes a node through: always to the backend, to the cache if it is newer. */
    method Put(n: Node, now: int) returns (ok: bool)
      modifies this`cache, cluster
      ensures ok <==> n.id != ""
      ensures !ok ==>
                cache == old(cache)
                && cluster.records == old(cluster.records)
                && cluster.members == old(cluster.members)
      ensures ok ==>
                var stamped := if n.updatedAt == 0 then n.(updatedAt := now) else n;
                && cluster.records == old(cluster.records)[n.id := Good(stamped)]
                && cluster.members == old(cluster.members) + {n.id}
                && cache == Commit(old(cache), stamped) && !Supersedes(stamped, cache[n.id])
      ensures Forward(old(cache), cache) && old(cache.Keys) <= cache.Keys
    {
      if n.id == "" {
        return false;
      }
      var cp := if n.updatedAt == 0 then n.(updatedAt := now) else n;
      cluster.records := cluster.records[cp.id := Good(cp)];
      cluster.members := cluster.members + {cp.id};
      CommitNode(cp);
      return true;
    }

    /** A cached node, or else the backend's, which is then cached. */
    method Get(id: string) returns (r: Option<Node>)
      modifies this`cache
      ensures id in old(cache) ==> r == Some(old(cache[id])) && cache == old(cache)
      ensures id !in old(cache) ==>
                if id in cluster.records && cluster.records[id].Good?
                then r == Some(cluster.records[id].node) && cache == Commit(old(cache), r.value)
                else r == None && cache == old(cache)
      ensures Forward(old(cache), cache) && old(cache.Keys) <= cache.Keys
    {
      if id in cache {
        return Some(cache[id]);
      }
      if id !in cluster.records || cluster.records[id].Garbled? {
        return None;
      }
      var node := cluster.records[id].node;
      CommitNode(node);
      return Some(node);
    }

    /** Applies `fn` to a copy of the current record and writes it through, stamped now. */
    method Mutate(id: string, fn: Node -> Node, now: int) returns (r: Option<Node>)
      requires now != 0
      modifies this`cache, cluster
      ensures Forward(old(cache), cache) && old(cache.Keys) <= cache.Keys
      ensures r == match old(Known(cache, cluster.records, id))
                   case Some(cur) => if fn(cur).id == "" then None else Some(fn(cur).(updatedAt := now))
                   case None => None
      ensures r.None? ==> cluster.records == old(cluster.records) && cluster.members == old(cluster.members)
      ensures r.Some? ==>
                && r.value.id in cache && !Supersedes(r.value, cache[r.value.id])
                && cluster.records == old(cluster.records)[r.value.id := Good(r.value)]
                && cluster.members == old(cluster.members) + {r.value.id}
    {
      var cur := Get(id);
      if cur.None? {
        return None;
      }
      var n := fn(cur.value).(updatedAt := now);
      var ok := Put(n, now);
      return if ok then Some(n) else None;
    }

    method Remove(id: string)
      modifies this`cache, cluster
      ensures cluster.records == old(cluster.records) - {id} && cluster.members == old(cluster.members) - {id}
      ensures cache == old(cache) - {id}
    {
      cluster.records := cluster.records - {id};
      cluster.members := cluster.members - {id};
      cache := cache - {id};
    }

    /** One anti-entropy pass over a backend nobody else is changing. */
    method Refresh()
      requires WellKeyed(cluster.records)
      modifies this`cache, cluster`members
      ensures cache == Refreshed(old(cache), old(cluster.members), cluster.records)
      ensures cluster.members == old(cluster.members) * cluster.records.Keys
      ensures Forward(old(cache), cache)
    {
      ghost var before, records := cache, cluster.records;
      var present := cluster.members;
      PullRoster();
      ghost var pulled := cache;
      EvictStrays(cache.Keys - present);
      forall id
        ensures SameAt(cache, Refreshed(before, present, records), id)
      {
        assert PulledAt(pulled, before, records, present, id);
        assert RecheckedAt(cache, pulled, records, pulled.Keys - present, id);
      }
      SameEverywhere(cache, Refreshed(before, present, records));
    }

    /** The first loop: commit every roster record, drop roster entries without one. */
    method PullRoster()
      requires WellKeyed(cluster.records)
      modifies this`cache, cluster`members
      ensures cluster.members == old(cluster.members) * cluster.records.Keys
      ensures forall id :: PulledAt(cache, old(cache), cluster.records, old(cluster.members), id)
    {
      var todo := cluster.members;
      ghost var done := {};
      while todo != {}
        invariant todo !! done && todo + done == old(cluster.members)
        invariant cluster.members == todo + done * cluster.records.Keys
        invariant forall id :: PulledAt(cache, old(cache), cluster.records, done, id)
        decreases todo
      {
        var id :| id in todo;
        todo := todo - {id};
        ghost var prev := cache;
        if id !in cluster.records {
          cluster.members := cluster.members - {id};
        } else if cluster.records[id].Good? {
          CommitNode(cluster.records[id].node);
        }
        assert cache == Pulled(prev, cluster.records, id);
        forall x
          ensures PulledAt(cache, old(cache), cluster.records, done + {id}, x)
        {
          assert PulledAt(prev, old(cache), cluster.records, done, x);
        }
        done := done + {id};
      }
    }

    /** The second loop: re-check cached ids that are off the roster. */
    method EvictStrays(candidates: set<string>)
      requires WellKeyed(cluster.records) && candidates <= cache.Keys
      modifies this`cache
      ensures forall id :: RecheckedAt(cache, old(cache), cluster.records, candidates, id)
    {
      var todo := candidates;
      ghost var done := {};
      while todo != {}
        invariant todo !! done && todo + done == candidates
        invariant forall id :: RecheckedAt(cache, old(cache), cluster.records, done, id)
        decreases todo
      {
        var id :| id in todo;
        todo := todo - {id};
        ghost var prev := cache;
        if id in cluster.records && cluster.records[id].Good? {
          CommitNode(cluster.records[id].node);
        } else {
          cache := cache - {id};
        }
        assert cache == Rechecked(prev, cluster.records, id);
        forall x
          ensures RecheckedAt(cache, old(cache), cluster.records, done + {id}, x)
        {
          assert RecheckedAt(prev, old(cache), cluster.records, done, x);
        }
        done := done + {id};
      }
    }
  }

  /** The entry for `id` once the first loop has dealt with the ids in `done`. */
  predicate PulledAt(cache: Cache, before: Cache, records: Records, done: set<string>, id: string) {
    SameAt(cache, if id in done then Pulled(before, records, id) else before, id)
  }

  predicate RecheckedAt(cache: Cache, before: Cache, records: Records, done: set<string>, id: string) {
    SameAt(cache, if id in done then Rechecked(before, records, id) else before, id)
  }

  predicate SameAt(a: Cache, b: Cache, id: string) {
    if id in a then id in b && a[id] == b[id] else id !in b
  }

  lemma {:induction false} SameEverywhere(a: Cache, b: Cache)
    requires forall id :: SameAt(a, b, id)
    ensures a == b
  {
    assert forall id :: id in a ==> SameAt(a, b, id);
    assert forall id :: id in b ==> SameAt(a, b, id);
    assert a.Keys == b.Keys;
  }

  // ---- What refreshing achieves ----

  /** Exactly the known ids with a backend record, each at least as new as a record that
      decodes; one that does not decode keeps a cached and listed node as it was. */
  ghost predicate Repaired(cache: Cache, members: set<string>, records: Records, after: Cache) {
    && (forall id :: id in after <==>
          id in records && if records[id].Good? then id in cache || id in members else id in cache && id in members)
    && (forall id :: id in after && id in records ==>
          if records[id].Good? then !Supersedes(records[id].node, after[id]) else id in cache && after[id] == cache[id])
  }

  /** Two passes over a quiet backend repair any cache, and a third changes nothing. */
  lemma {:induction false} TwoPassesRepair(cache: Cache, members: set<string>, records: Records)
    requires WellKeyed(records)
    ensures var once := Refreshed(cache, members, records);
            var twice := Refreshed(once, members * records.Keys, records);
            && Repaired(cache, members, records, twice)
            && Refreshed(twice, members * records.Keys, records) == twice
  {
  }

  /** One pass is enough exactly when no cached id is on the roster without a record. */
  lemma {:induction false} OnePassExact(cache: Cache, members: set<string>, records: Records)
    requires WellKeyed(records)
    ensures Repaired(cache, members, records, Refreshed(cache, members, records)) <==>
            forall id :: id in cache && id in members ==> id in records
  {
    var once := Refreshed(cache, members, records);
    if id :| id in cache && id in members && id !in records {
      assert id in once;
    }
  }

  // ---- Every run of concurrent calls ----

  /** A call under way, between two of its accesses to the backend or the cache: a record
      written and to be listed; a record to be committed; an id found without a record and to
      be taken off the roster, or to be evicted; a removal that has deleted the record, or
      taken the id off the roster. */
  datatype Task =
    | Listing(node: Node) | Committing(node: Node)
    | Unlisting(id: string) | Evicting(id: string)
    | Delisting(id: string) | Dropping(id: string)

  datatype State = State(cache: Cache, records: Records, members: set<string>, tasks: map<nat, Task>)

  /** Pull and Recheck are the reads of a refresh's two loops, and Pull also that of a Get;
      a Mutate is a Get followed by a Put of what its function made.  Foreign is anything
      another process does to the backend. */
  datatype Step =
    | PutWrite(call: nat, node: Node)
    | Pull(call: nat, id: string)
    | Recheck(call: nat, id: string)
    | RemoveRecord(call: nat, id: string)
    | Continue(call: nat)
    | Foreign(records: Records, members: set<string>)

  /** The second half of a call. */
  function Continued(st: State, c: nat, t: Task): State {
    var rest := st.(tasks := st.tasks - {c});
    match t
    case Listing(n) => st.(members := st.members + {n.id}, tasks := st.tasks[c := Committing(n)])
    case Committing(n) => rest.(cache := Commit(st.cache, n))
    case Unlisting(id) => rest.(members := st.members - {id})
    case Evicting(id) => rest.(cache := st.cache - {id})
    case Delisting(id) => st.(members := st.members - {id}, tasks := st.tasks[c := Dropping(id)])
    case Dropping(id) => rest.(cache := st.cache - {id})
  }

  function Next(st: State, s: Step): State {
    match s
    case Foreign(records, members) => st.(records := records, members := members)
    case Continue(c) => if c in st.tasks then Continued(st, c, st.tasks[c]) else st
    case _ =>
      var c := s.call;
      if c in st.tasks then st
      else
        match s
        case PutWrite(_, n) =>
          if n.id == "" then st
          else st.(records := st.records[n.id := Good(n)], tasks := st.tasks[c := Listing(n)])
        case Pull(_, id) =>
          if id !in st.records then st.(tasks := st.tasks[c := Unlisting(id)])
          else if st.records[id].Good? then st.(tasks := st.tasks[c := Committing(st.records[id].node)])
          else st
        case Recheck(_, id) =>
          if id in st.records && st.records[id].Good? then st.(tasks := st.tasks[c := Committing(st.records[id].node)])
          else st.(tasks := st.tasks[c := Evicting(id)])
        case RemoveRecord(_, id) => st.(records := st.records - {id}, tasks := st.tasks[c := Delisting(id)])
  }

  function Run(st: State, steps: seq<Step>): State
    decreases steps
  {
    if steps == [] then st else Run(Next(st, steps[0]), steps[1..])
  }

  /** The id is cached before, during and after the run. */
  predicate StaysCached(st: State, steps: seq<Step>, id: string)
    decreases steps
  {
    id in st.cache && (steps == [] || StaysCached(Next(st, steps[0]), steps[1..], id))
  }

  /** Some step of the run commits the node. */
  predicate Commits(st: State, steps: seq<Step>, n: Node)
    decreases steps
  {
    && steps != []
    && (|| (steps[0].Continue? && steps[0].call in st.tasks && st.tasks[steps[0].call] == Committing(n))
        || Commits(Next(st, steps[0]), steps[1..], n))
  }

  lemma {:induction false} StepForward(st: State, s: Step)
    ensures Forward(st.cache, Next(st, s).cache)
  {
  }

  /** Over every interleaving of puts, lookups, mutations, removals and refreshes, with stale
      reads in flight and other processes at work, the stamp of a node that stays cached
      never goes back. */
  lemma {:induction false} NeverBack(st: State, steps: seq<Step>, id: string)
    requires StaysCached(st, steps, id)
    ensures id in Run(st, steps).cache && !Supersedes(st.cache[id], Run(st, steps).cache[id])
    decreases steps
  {
    if steps != [] {
      StepForward(st, steps[0]);
      NeverBack(Next(st, steps[0]), steps[1..], id);
    }
  }

  /** And it ends no older than anything committed for it on the way. */
  lemma {:induction false} EndsNewest(st: State, steps: seq<Step>, n: Node)
    requires StaysCached(st, steps, n.id) && Commits(st, steps, n)
    ensures n.id in Run(st, steps).cache && !Supersedes(n, Run(st, steps).cache[n.id])
    decreases steps
  {
    var st' := Next(st, steps[0]);
    if Commits(st', steps[1..], n) {
      EndsNewest(st', steps[1..], n);
    } else {
      assert !Supersedes(n, st'.cache[n.id]);
      NeverBack(st', steps[1..], n.id);
    }
  }

  const INIT := State(map[], map[], {}, map[])
  const OLDER := Node("n", 1, 1, "")
  const NEWER := Node("n", 2, 1, "")

  lemma {:induction false} RunSnoc(st: State, steps: seq<Step>, x: Step)
    ensures Run(st, steps + [x]) == Next(Run(st, steps), x)
    decreases steps
  {
    if steps == [] {
      assert steps + [x] == [x] && [x][1..] == [];
    } else {
      assert (steps + [x])[1..] == steps[1..] + [x];
      RunSnoc(Next(st, steps[0]), steps[1..], x);
    }
  }

  /** Extends a run by a step whose result is known. */
  lemma {:induction false} Then(steps: seq<Step>, st: State, x: Step, st': State) returns (longer: seq<Step>)
    requires Run(INIT, steps) == st && Next(st, x) == st'
    ensures longer == steps + [x] && Run(INIT, longer) == st'
  {
    RunSnoc(INIT, steps, x);
    longer := steps + [x];
  }

  /** A newer record is cached while a lookup still holds the older one it read. */
  lemma {:induction false} StaleInFlight() returns (steps: seq<Step>)
    ensures Run(INIT, steps) == State(map["n" := NEWER], map["n" := Good(NEWER)], {}, map[0 := Committing(OLDER)])
  {
    var s1 := INIT.(records := map["n" := Good(OLDER)]);
    steps := Then([], INIT, Foreign(s1.records, {}), s1);
    var s2 := s1.(tasks := map[0 := Committing(OLDER)]);
    steps := Then(steps, s1, Pull(0, "n"), s2);
    var s3 := s2.(records := map["n" := Good(NEWER)]);
    steps := Then(steps, s2, Foreign(s3.records, {}), s3);
    var s4 := s3.(tasks := map[0 := Committing(OLDER), 1 := Committing(NEWER)]);
    steps := Then(steps, s3, Pull(1, "n"), s4);
    var s5 := s3.(cache := map["n" := NEWER]);
    assert s4.tasks - {1} == s3.tasks;
    steps := Then(steps, s4, Continue(1), s5);
  }

  /** Across an eviction a stamp can go back: the lookup commits what it read long before. */
  lemma {:induction false} BackAfterRemoval() returns (before: seq<Step>, after: seq<Step>)
    ensures before <= after && "n" in Run(INIT, before).cache && "n" in Run(INIT, after).cache
    ensures Supersedes(Run(INIT, before).cache["n"], Run(INIT, after).cache["n"])
  {
    before := StaleInFlight();
    var s0 := State(map["n" := NEWER], map["n" := Good(NEWER)], {}, map[0 := Committing(OLDER)]);
    var s1 := s0.(records := map[]);
    after := Then(before, s0, Foreign(map[], {}), s1);
    var s2 := s1.(tasks := map[0 := Committing(OLDER), 1 := Evicting("n")]);
    after := Then(after, s1, Recheck(1, "n"), s2);
    var s3 := s1.(cache := map[]);
    assert s2.tasks - {1} == s1.tasks && s2.cache - {"n"} == map[];
    after := Then(after, s2, Continue(1), s3);
    var s4 := s3.(cache := map["n" := OLDER], tasks := map[]);
    assert s3.tasks - {0} == map[];
    after := Then(after, s3, Continue(0), s4);
  }

  /** Some step of the run takes the id out of the cache. */
  predicate Drops(st: State, steps: seq<Step>, id: string)
    decreases steps
  {
    && steps != []
    && (|| (&& steps[0].Continue? && steps[0].call in st.tasks
            && (st.tasks[steps[0].call] == Evicting(id) || st.tasks[steps[0].call] == Dropping(id)))
        || Drops(Next(st, steps[0]), steps[1..], id))
  }

  lemma {:induction false} StaysUnlessDropped(st: State, steps: seq<Step>, id: string)
    requires id in st.cache && !Drops(st, steps, id)
    ensures StaysCached(st, steps, id)
    decreases steps
  {
    if steps != [] {
      assert id in Next(st, steps[0]).cache;
      StaysUnlessDropped(Next(st, steps[0]), steps[1..], id);
    }
  }

  /** A stretch of a run over which an id may, or may not, be dropped. */
  ghost predicate Stretch(drops: bool, st: State, steps: seq<Step>, id: string) {
    && (exists before :: Run(INIT, before) == st)
    && id in st.cache && id in Run(st, steps).cache && (drops || !Drops(st, steps, id))
  }

  lemma {:induction false} RunConcat(st: State, a: seq<Step>, b: seq<Step>)
    ensures Run(st, a + b) == Run(Run(st, a), b)
    decreases a
  {
    if a == [] {
      assert a + b == b;
    } else {
      assert (a + b)[1..] == a[1..] + b;
      RunConcat(Next(st, a[0]), a[1..], b);
    }
  }

  /** Stamps go back over no stretch of any run exactly when drops are excluded. */
  lemma {:induction false} RemovalExact(drops: bool)
    ensures (forall st, steps, id :: Stretch(drops, st, steps, id) ==>
              !Supersedes(st.cache[id], Run(st, steps).cache[id]))
       <==> !drops
  {
    if !drops {
      forall st, steps, id | Stretch(drops, st, steps, id)
        ensures !Supersedes(st.cache[id], Run(st, steps).cache[id])
      {
        StaysUnlessDropped(st, steps, id);
        NeverBack(st, steps, id);
      }
    } else {
      var before, after := BackAfterRemoval();
      var steps := after[|before|..];
      assert after == before + steps;
      RunConcat(INIT, before, steps);
      assert Stretch(drops, Run(INIT, before), steps, "n");
    }
  }
}
