/** Layered configuration: profile inheritance inside one provider's keys, priority between
    providers, and runtime overrides on top. */
module Configuration {
  import opened Wrappers

  type Data = map<string, string>

  function Get(m: Data, k: string): Option<string> {
    if k in m then Some(m[k]) else None
  }

  // ---- Profiles ----

  const DEVELOPMENT := "development"
  const COMMON := "common"

  /** The profiles to look in, most specific first; no active profile means development. */
  function Chain(active: string): seq<string> {
    var profile := if active == "" then DEVELOPMENT else active;
    if profile == "local" || profile == "testing" then [profile, DEVELOPMENT, COMMON] else [profile, COMMON]
  }

  function Scoped(profile: string, key: string): string {
    profile + "." + key
  }

  predicate InScope(profile: string, key: string) {
    profile + "." <= key
  }

  method IsScoped(key: string, chain: seq<string>) returns (scoped: bool)
    ensures scoped <==> exists p :: p in chain && InScope(p, key)
  {
    for i := 0 to |chain|
      invariant forall n :: 0 <= n < i ==> !InScope(chain[n], key)
    {
      if InScope(chain[i], key) {
        return true;
      }
    }
    return false;
  }

  /** The value of a key in the most specific layer that has it, else `base`. */
  function Layered(layers: seq<string>, raw: Data, key: string, base: Option<string>): Option<string> {
    if layers == [] then base
    else if Scoped(layers[0], key) in raw then Some(raw[Scoped(layers[0], key)])
    else Layered(layers[1..], raw, key, base)
  }

  /** The value a single lookup finds: the layers, then the key as it stands. */
  function Found(active: string, raw: Data, key: string): Option<string> {
    Layered(Chain(active), raw, key, Get(raw, key))
  }

  method ResolveKey(active: string, key: string, raw: Data) returns (r: Option<string>)
    ensures r == Found(active, raw, key)
  {
    var chain := Chain(active);
    for i := 0 to |chain|
      invariant Layered(chain, raw, key, Get(raw, key)) == Layered(chain[i..], raw, key, Get(raw, key))
    {
      if Scoped(chain[i], key) in raw {
        return Some(raw[Scoped(chain[i], key)]);
      }
      assert chain[i..][1..] == chain[i + 1..];
    }
    r := Get(raw, key);
  }

  ghost predicate AnyScope(active: string, key: string) {
    exists p :: p in Chain(active) && InScope(p, key)
  }

  /** The value the flattened map holds: unscoped keys, overlaid layer by layer. */
  ghost function Flattened(active: string, raw: Data, key: string): Option<string> {
    Layered(Chain(active), raw, key, Base(active, raw, key))
  }

  ghost function Base(active: string, raw: Data, key: string): Option<string> {
    if AnyScope(active, key) then None else Get(raw, key)
  }

  method Unscoped(active: string, raw: Data) returns (r: Data)
    ensures forall k :: Get(r, k) == Base(active, raw, k)
  {
    r := map[];
    var todo := raw.Keys;
    while todo != {}
      invariant todo <= raw.Keys
      invariant forall k :: Get(r, k) == if k in todo then None else Base(active, raw, k)
      decreases todo
    {
      var k :| k in todo;
      todo := todo - {k};
      var scoped := IsScoped(k, Chain(active));
      if !scoped {
        r := r[k := raw[k]];
      }
    }
  }

  /** Overlays one profile's keys, in any order. */
  method Overlay(profile: string, raw: Data, below: Data) returns (r: Data)
    ensures forall k :: Get(r, k) == if Scoped(profile, k) in raw then Some(raw[Scoped(profile, k)]) else Get(below, k)
  {
    r := below;
    var prefix, todo := profile + ".", raw.Keys;
    while todo != {}
      invariant todo <= raw.Keys
      invariant forall k :: Get(r, k)
                         == if Scoped(profile, k) in raw && Scoped(profile, k) !in todo
                            then Some(raw[Scoped(profile, k)])
                            else Get(below, k)
      decreases todo
    {
      var k :| k in todo;
      todo := todo - {k};
      if prefix <= k {
        assert k == Scoped(profile, k[|prefix|..]);
        assert forall x :: Scoped(profile, x) == k ==> x == k[|prefix|..];
        r := r[k[|prefix|..] := raw[k]];
      } else {
        assert forall x :: Scoped(profile, x) != k;
      }
    }
  }

  /** Flattens a provider's keys; the result does not depend on the order they come in. */
  method ResolveConfig(active: string, raw: Data) returns (resolved: Data)
    ensures forall k :: Get(resolved, k) == Flattened(active, raw, k)
  {
    resolved := Unscoped(active, raw);
    var chain := Chain(active);
    var i := |chain|;
    while i > 0
      invariant 0 <= i <= |chain|
      invariant forall k :: Get(resolved, k) == Layered(chain[i..], raw, k, Base(active, raw, k))
    {
      i := i - 1;
      assert chain[i..][1..] == chain[i + 1..];
      resolved := Overlay(chain[i], raw, resolved);
    }
    assert chain[0..] == chain;
  }

  lemma {:induction false} LayeredBase(layers: seq<string>, raw: Data, key: string, a: Option<string>,
                                       b: Option<string>)
    ensures (exists p :: p in layers && Scoped(p, key) in raw) ==>
              Layered(layers, raw, key, a) == Layered(layers, raw, key, b)
    ensures !(exists p :: p in layers && Scoped(p, key) in raw) ==>
              Layered(layers, raw, key, a) == a && Layered(layers, raw, key, b) == b
  {
    if layers != [] {
      LayeredBase(layers[1..], raw, key, a, b);
      assert layers == [layers[0]] + layers[1..];
    }
  }

  /** Looking a key up in the flattened map agrees with the direct search exactly when the key
      carries no profile of the chain, or is not there as it stands, or some layer has it. */
  lemma {:induction false} AgreementExact(active: string, raw: Data, key: string)
    ensures Flattened(active, raw, key) == Found(active, raw, key)
       <==> !AnyScope(active, key) || key !in raw || exists p :: p in Chain(active) && Scoped(p, key) in raw
  {
    LayeredBase(Chain(active), raw, key, Base(active, raw, key), Get(raw, key));
  }

  /** A scoped key found directly that the flattened map does not hold. */
  lemma {:induction false} ScopedKeyVanishes()
    ensures Found("production", map["common.a" := "1"], "common.a") == Some("1")
    ensures Flattened("production", map["common.a" := "1"], "common.a") == None
  {
    var raw := map["common.a" := "1"];
    assert InScope(COMMON, "common.a") && COMMON in Chain("production");
    assert Scoped("production", "common.a")[0] == 'p' && |Scoped(COMMON, "common.a")| == 15;
    LayeredBase(Chain("production"), raw, "common.a", Base("production", raw, "common.a"), Get(raw, "common.a"));
  }

  // ---- Providers ----

  datatype Provider = Provider(name: string, priority: int)

  /** What a provider's load returns, or None when it fails. */
  type Loads = string -> Option<Data>

  predicate Ordered(ps: seq<Provider>) {
    forall i, k :: 0 <= i < k < |ps| ==> ps[i].priority <= ps[k].priority
  }

  predicate Named(ps: seq<Provider>) {
    forall i, k :: 0 <= i < k < |ps| ==> ps[i].name != ps[k].name
  }

  /** `r` is `ps` with `p` put in at `at`. */
  predicate Inserted(r: seq<Provider>, ps: seq<Provider>, p: Provider, at: nat) {
    |r| == |ps| + 1 && at <= |ps| && r[at] == p
    && (forall n :: 0 <= n < at ==> r[n] == ps[n]) && (forall n :: at < n < |r| ==> r[n] == ps[n - 1])
  }

  lemma {:induction false} InsertNamed(r: seq<Provider>, ps: seq<Provider>, p: Provider, at: nat)
    requires Inserted(r, ps, p, at) && Named(ps) && forall n :: 0 <= n < |ps| ==> ps[n].name != p.name
    ensures Named(r)
  {
    forall i, k | 0 <= i < k < |r|
      ensures r[i].name != r[k].name
    {
      assert i < at || i == at || r[i] == ps[i - 1];
      assert k < at || k == at || r[k] == ps[k - 1];
    }
  }

  lemma {:induction false} InsertOrdered(r: seq<Provider>, ps: seq<Provider>, p: Provider, at: nat)
    requires Inserted(r, ps, p, at) && Ordered(ps)
    requires at > 0 ==> ps[at - 1].priority <= p.priority
    requires forall n :: at <= n < |ps| ==> p.priority < ps[n].priority
    ensures Ordered(r)
  {
    forall i, k | 0 <= i < k < |r|
      ensures r[i].priority <= r[k].priority
    {
      assert i < at ==> ps[i].priority <= ps[at - 1].priority;
      assert i < at || i == at || r[i] == ps[i - 1];
      assert k < at || k == at || r[k] == ps[k - 1];
    }
  }

  method Taken(ps: seq<Provider>, name: string) returns (taken: bool)
    ensures taken <==> exists q :: q in ps && q.name == name
  {
    for i := 0 to |ps|
      invariant forall n :: 0 <= n < i ==> ps[n].name != name
    {
      if ps[i].name == name {
        return true;
      }
    }
    return false;
  }

  method Insert(ps: seq<Provider>, p: Provider) returns (r: seq<Provider>)
    requires Ordered(ps) && Named(ps) && forall q :: q in ps ==> q.name != p.name
    ensures Ordered(r) && Named(r) && multiset(r) == multiset(ps) + multiset{p}
  {
    var at := |ps|;
    while at > 0 && p.priority < ps[at - 1].priority
      invariant 0 <= at <= |ps|
      invariant forall n :: at <= n < |ps| ==> p.priority < ps[n].priority
    {
      at := at - 1;
    }
    r := ps[..at] + [p] + ps[at..];
    InsertMembers(ps, p, at);
    InsertNamed(r, ps, p, at);
    InsertOrdered(r, ps, p, at);
  }

  lemma {:induction false} InsertMembers(ps: seq<Provider>, p: Provider, at: nat)
    requires at <= |ps|
    ensures multiset(ps[..at] + [p] + ps[at..]) == multiset(ps) + multiset{p}
    ensures Inserted(ps[..at] + [p] + ps[at..], ps, p, at)
  {
    assert ps == ps[..at] + ps[at..];
  }

  ghost predicate Resolves(active: string, load: Loads, p: Provider, key: string) {
    load(p.name).Some? && Flattened(active, load(p.name).value, key).Some?
  }

  /** The value from the first provider, in registry order, that loads and resolves the key. */
  ghost function FirstOf(active: string, load: Loads, ps: seq<Provider>, key: string): Option<string> {
    if ps == [] then None
    else if Resolves(active, load, ps[0], key) then Flattened(active, load(ps[0].name).value, key)
    else FirstOf(active, load, ps[1..], key)
  }

  /** The same by direct search: the value from the first provider in which a single lookup
      finds the key. */
  function FirstFound(active: string, load: Loads, ps: seq<Provider>, key: string): Option<string> {
    if ps == [] then None
    else if Finds(active, load, ps[0], key) then Found(active, load(ps[0].name).value, key)
    else FirstFound(active, load, ps[1..], key)
  }

  predicate Finds(active: string, load: Loads, p: Provider, key: string) {
    load(p.name).Some? && Found(active, load(p.name).value, key).Some?
  }

  /** The key carries a profile and stands only as it is: a lookup finds it and the flattened
      map lacks it. */
  ghost predicate Vanishes(active: string, raw: Data, key: string) {
    AnyScope(active, key) && key in raw && !exists p :: p in Chain(active) && Scoped(p, key) in raw
  }

  lemma {:induction false} VanishesExact(active: string, raw: Data, key: string)
    ensures Vanishes(active, raw, key) ==>
              Flattened(active, raw, key).None? && Found(active, raw, key) == Some(raw[key])
    ensures !Vanishes(active, raw, key) ==> Flattened(active, raw, key) == Found(active, raw, key)
  {
    AgreementExact(active, raw, key);
    LayeredBase(Chain(active), raw, key, Base(active, raw, key), Get(raw, key));
  }

  /** The provider has some profile's form of the key. */
  ghost predicate HasForm(active: string, load: Loads, p: Provider, key: string) {
    load(p.name).Some? && exists q :: q in Chain(active) && Scoped(q, key) in load(p.name).value
  }

  /** Some provider has a profile's form of the key, and the first that does gives it this value. */
  ghost predicate FormGives(active: string, load: Loads, ps: seq<Provider>, key: string, value: string) {
    && ps != []
    && if HasForm(active, load, ps[0], key)
       then Layered(Chain(active), load(ps[0].name).value, key, None) == Some(value)
       else FormGives(active, load, ps[1..], key, value)
  }

  /** The first provider in which a lookup finds the key has it only as it stands, and the first
      later one with a profile's form of it is missing or gives another value. */
  ghost predicate Masked(active: string, load: Loads, ps: seq<Provider>, key: string) {
    && ps != []
    && if Finds(active, load, ps[0], key)
       then var raw := load(ps[0].name).value;
            Vanishes(active, raw, key) && !FormGives(active, load, ps[1..], key, raw[key])
       else Masked(active, load, ps[1..], key)
  }

  /** A key that carries a profile is resolved only from a profile's form of it. */
  lemma {:induction false} FirstForm(active: string, load: Loads, ps: seq<Provider>, key: string, value: string)
    requires AnyScope(active, key)
    ensures FirstOf(active, load, ps, key) == Some(value) <==> FormGives(active, load, ps, key, value)
  {
    if ps != [] {
      if load(ps[0].name).Some? {
        var raw := load(ps[0].name).value;
        LayeredBase(Chain(active), raw, key, Base(active, raw, key), None);
        LayeredSome(Chain(active), raw, key);
      }
      FirstForm(active, load, ps[1..], key, value);
    }
  }

  lemma {:induction false} LayeredSome(layers: seq<string>, raw: Data, key: string)
    ensures Layered(layers, raw, key, None).Some? <==> exists p :: p in layers && Scoped(p, key) in raw
  {
    if layers != [] {
      LayeredSome(layers[1..], raw, key);
      assert layers == [layers[0]] + layers[1..];
    }
  }

  /** For every key, loading everything and searching provider by provider agree exactly when
      the key is not masked. */
  lemma {:induction false} SearchesAgree(active: string, load: Loads, ps: seq<Provider>, key: string)
    ensures FirstOf(active, load, ps, key) == FirstFound(active, load, ps, key) <==> !Masked(active, load, ps, key)
  {
    if ps != [] {
      if load(ps[0].name).Some? {
        var raw := load(ps[0].name).value;
        VanishesExact(active, raw, key);
        if Vanishes(active, raw, key) {
          FirstForm(active, load, ps[1..], key, raw[key]);
        }
      }
      SearchesAgree(active, load, ps[1..], key);
    }
  }

  lemma {:induction false} UnscopedNotMasked(active: string, load: Loads, ps: seq<Provider>, key: string)
    requires !AnyScope(active, key)
    ensures !Masked(active, load, ps, key)
  {
    if ps != [] {
      UnscopedNotMasked(active, load, ps[1..], key);
    }
  }

  /** In particular they agree on every key that carries no profile of the chain. */
  lemma {:induction false} FirstOfFound(active: string, load: Loads, ps: seq<Provider>, key: string)
    requires !AnyScope(active, key)
    ensures FirstOf(active, load, ps, key) == FirstFound(active, load, ps, key)
  {
    SearchesAgree(active, load, ps, key);
    UnscopedNotMasked(active, load, ps, key);
  }

  /** The lowest priority number that resolves the key wins. */
  lemma {:induction false} LowestPriorityWins(active: string, load: Loads, ps: seq<Provider>, key: string)
    requires Ordered(ps)
    ensures FirstOf(active, load, ps, key).None? <==> forall p :: p in ps ==> !Resolves(active, load, p, key)
    ensures FirstOf(active, load, ps, key).Some? ==>
              exists p :: p in ps && Resolves(active, load, p, key)
                       && FirstOf(active, load, ps, key) == Flattened(active, load(p.name).value, key)
                       && forall q :: q in ps && Resolves(active, load, q, key) ==> p.priority <= q.priority
  {
    if ps != [] {
      assert ps[0] in ps && forall q :: q in ps ==> ps[0].priority <= q.priority;
      LowestPriorityWins(active, load, ps[1..], key);
      assert forall q :: q in ps <==> q == ps[0] || q in ps[1..];
    }
  }

  method Merge(over: Data, below: Data) returns (r: Data)
    ensures forall k :: Get(r, k) == if k in over then Some(over[k]) else Get(below, k)
  {
    r := below;
    var todo := over.Keys;
    while todo != {}
      invariant todo <= over.Keys
      invariant forall k :: Get(r, k) == if k in over && k !in todo then Some(over[k]) else Get(below, k)
      decreases todo
    {
      var k :| k in todo;
      todo := todo - {k};
      r := r[k := over[k]];
    }
  }

  datatype Snapshot = Snapshot(version: int, data: Data)

  function Newest(n: int, history: seq<Snapshot>): seq<Snapshot>
    requires n > 0
  {
    if |history| <= n then history else history[|history| - n..]
  }

  class Manager {
    const active: string
    const maxVersions: int
    var providers: seq<Provider>
    var overrides: Data
    var history: seq<Snapshot>

    ghost predicate Valid()
      reads this
    {
      && Ordered(providers) && Named(providers)
      && 0 < maxVersions && |history| <= maxVersions
      && (forall i :: 0 < i < |history| ==> history[i].version == history[i - 1].version + 1)
    }

    constructor (active: string, maxVersions: int)
      ensures Valid() && providers == [] && overrides == map[] && history == []
      ensures this.active == active && this.maxVersions == if maxVersions <= 0 then 50 else maxVersions
    {
      this.active := active;
      this.maxVersions := if maxVersions <= 0 then 50 else maxVersions;
      providers, overrides, history := [], map[], [];
    }

    /** Adds a provider in priority order; a name already there is refused. */
    method Register(p: Provider) returns (ok: bool)
      requires Valid()
      modifies this`providers
      ensures Valid()
      ensures ok <==> forall q :: q in old(providers) ==> q.name != p.name
      ensures !ok ==> providers == old(providers)
      ensures ok ==> multiset(providers) == multiset(old(providers)) + multiset{p}
    {
      var taken := Taken(providers, p.name);
      if taken {
        return false;
      }
      var r := Insert(providers, p);
      providers := r;
      return true;
    }

    /** Loads every provider, lowest precedence first, and lays the overrides on top. */
    method Merged(load: Loads) returns (r: Data)
      requires Valid()
      ensures forall k :: Get(r, k) == if k in overrides then Some(overrides[k])
                else FirstOf(active, load, providers, k)
    {
      r := map[];
      var i := |providers|;
      while i > 0
        invariant 0 <= i <= |providers|
        invariant forall k :: Get(r, k) == FirstOf(active, load, providers[i..], k)
      {
        i := i - 1;
        assert providers[i..][0] == providers[i] && providers[i..][1..] == providers[i + 1..];
        if load(providers[i].name).Some? {
          var resolved := ResolveConfig(active, load(providers[i].name).value);
          ghost var below := r;
          r := Merge(resolved, r);
          forall k
            ensures Get(r, k) == FirstOf(active, load, providers[i..], k)
          {
            assert Get(resolved, k) == Flattened(active, load(providers[i].name).value, k);
            assert Get(below, k) == FirstOf(active, load, providers[i + 1..], k);
          }
        }
      }
      assert providers[0..] == providers;
      r := Merge(overrides, r);
    }

    /** Adds the next version and keeps the newest `maxVersions` of them. */
    method RecordSnapshot(data: Data) returns (snap: Snapshot)
      requires Valid()
      modifies this`history
      ensures Valid()
      ensures snap == Snapshot(if old(history) == [] then 1 else old(history)[|old(history)| - 1].version + 1, data)
      ensures history == Newest(maxVersions, old(history) + [snap])
    {
      var version := if |history| > 0 then history[|history| - 1].version + 1 else 1;
      snap := Snapshot(version, data);
      history := history + [snap];
      if |history| > maxVersions {
        history := history[|history| - maxVersions..];
      }
    }

    /** A valid configuration becomes the next version; an invalid one leaves the history alone. */
    method Load(load: Loads, validate: Data -> bool) returns (snap: Option<Snapshot>, ghost merged: Data)
      requires Valid()
      modifies this`history
      ensures Valid()
      ensures forall k :: Get(merged, k) == if k in overrides then Some(overrides[k])
                else FirstOf(active, load, providers, k)
      ensures snap.Some? <==> validate(merged)
      ensures snap.None? ==> history == old(history)
      ensures snap.Some? ==> snap.value.data == merged && history == Newest(maxVersions, old(history) + [snap.value])
    {
      var data := Merged(load);
      if !validate(data) {
        return None, data;
      }
      var s := RecordSnapshot(data);
      return Some(s), data;
    }
  }
}
