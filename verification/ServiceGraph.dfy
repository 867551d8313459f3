/** Validation of a deployment's service graph: names, declared dependencies, and
    the depth-first search for circular ones. */
module ServiceGraph {

  datatype Service = Service(name: string, dependencies: seq<string>)

  type Graph = map<string, Service>

  /** A name the graph does not declare reads as a service without dependencies. */
  function Deps(g: Graph, name: string): seq<string> {
    if name in g then g[name].dependencies else []
  }

  ghost predicate Edge(g: Graph, a: string, b: string) {
    b in Deps(g, a)
  }

  ghost predicate Path(g: Graph, p: seq<string>) {
    forall i :: 0 <= i < |p| - 1 ==> Edge(g, p[i], p[i + 1])
  }

  /** A cycle: a walk along at least one dependency, back to where it started. */
  ghost predicate Cycle(g: Graph, p: seq<string>) {
    |p| > 1 && p[0] == p[|p| - 1] && Path(g, p)
  }

  ghost predicate Circular(g: Graph) {
    exists p :: Cycle(g, p)
  }

  /** Each service comes after everything it depends on, and none comes twice. */
  ghost predicate StartOrder(g: Graph, order: seq<string>) {
    && (forall i, j :: 0 <= i < j < |order| ==> order[i] != order[j])
    && (forall i, d :: 0 <= i < |order| && Edge(g, order[i], d) ==> d in order[..i])
  }

  /** A start order of all the services rules out every cycle. */
  lemma {:induction false} OrderRulesOutCycles(g: Graph, order: seq<string>)
    requires StartOrder(g, order)
    requires forall n :: n in g ==> n in order
    ensures !Circular(g)
  {
    if Circular(g) {
      var p :| Cycle(g, p);
      assert Edge(g, p[0], p[1]);
      assert p[0] in order;
      var i :| 0 <= i < |order| && order[i] == p[0];
      Descend(g, order, p, |p| - 1, i);
    }
  }

  /** Along a path, positions in a start order strictly fall. */
  lemma {:induction false} Descend(g: Graph, order: seq<string>, p: seq<string>, k: nat, i: nat)
    requires StartOrder(g, order) && Path(g, p)
    requires 0 < k < |p| && i < |order| && order[i] == p[0]
    ensures p[k] in order[..i]
  {
    assert Edge(g, p[k - 1], p[k]);
    if k > 1 {
      Descend(g, order, p, k - 1, i);
      var j :| 0 <= j < i && order[j] == p[k - 1];
      assert p[k] in order[..j];
    }
  }

  /** The visited and visiting maps of the search (the names mapped to true). */
  class Search {
    var visited: set<string>
    var visiting: set<string>
    ghost var order: seq<string>  // visited names as they finished

    ghost predicate Valid(g: Graph)
      reads this
    {
      && visited !! visiting
      && (forall n :: n in visited <==> n in order)
      && StartOrder(g, order)
    }

    constructor ()
      ensures visited == {} && visiting == {} && order == []
    {
      visited, visiting, order := {}, {}, [];
    }

    /** Searches from `name`.  `trail` is the chain of calls under way, which the
        dependencies link up to `name`; `all` bounds the names there are. */
    method HasCycle(name: string, g: Graph, ghost trail: seq<string>, ghost all: set<string>)
      returns (found: bool)
      requires Valid(g) && name !in visited && name !in visiting
      requires Path(g, trail + [name]) && forall n :: n in visiting <==> n in trail
      requires name in all && forall a, b :: a in all && Edge(g, a, b) ==> b in all
      modifies this
      ensures found ==> Circular(g)
      ensures !found ==> Valid(g) && visiting == old(visiting)
      ensures !found ==> old(visited) <= visited && name in visited
      decreases all - visiting
    {
      visiting := visiting + {name};
      ghost var chain := trail + [name];
      var deps := Deps(g, name);
      var i := 0;
      while i < |deps|
        invariant 0 <= i <= |deps|
        invariant Valid(g) && visiting == old(visiting) + {name}
        invariant old(visited) <= visited
        invariant forall j :: 0 <= j < i ==> deps[j] in visited
      {
        var dep := deps[i];
        assert Edge(g, name, dep);
        if dep in visiting {
          CloseCycle(g, chain, dep);
          return true;
        }
        if dep !in visited {
          assert Path(g, chain + [dep]);
          var inner := HasCycle(dep, g, chain, all);
          if inner {
            return true;
          }
        }
        i := i + 1;
      }
      visiting := visiting - {name};
      visited := visited + {name};
      Finish(g, order, name);
      order := order + [name];
      return false;
    }
  }

  /** A dependency on a name still being visited closes a cycle. */
  lemma {:induction false} CloseCycle(g: Graph, chain: seq<string>, dep: string)
    requires chain != [] && Path(g, chain) && dep in chain && Edge(g, chain[|chain| - 1], dep)
    ensures Circular(g)
  {
    var i :| 0 <= i < |chain| && chain[i] == dep;
    var p := chain[i..] + [dep];
    forall k | 0 <= k < |p| - 1
      ensures Edge(g, p[k], p[k + 1])
    {
      if k < |p| - 2 {
        assert Edge(g, chain[i + k], chain[i + k + 1]);
      }
    }
    assert Cycle(g, p);
  }

  lemma {:induction false} Finish(g: Graph, order: seq<string>, name: string)
    requires StartOrder(g, order) && name !in order
    requires forall d :: Edge(g, name, d) ==> d in order
    ensures StartOrder(g, order + [name])
  {
    var longer := order + [name];
    forall i, d | 0 <= i < |longer| && Edge(g, longer[i], d)
      ensures d in longer[..i]
    {
      assert longer[..i] == order[..i];
      assert order[..|order|] == order;
    }
  }

  /** All names the graph declares or mentions. */
  ghost function Names(g: Graph): (all: set<string>)
    ensures g.Keys <= all
    ensures forall a, b :: Edge(g, a, b) ==> b in all
  {
    g.Keys + set a, b | a in g && b in g[a].dependencies :: b
  }

  /** The search over every service, in whatever order the map is walked. */
  method FindCycle(g: Graph) returns (found: bool, ghost order: seq<string>)
    ensures found <==> Circular(g)
    ensures !found ==> StartOrder(g, order) && forall n :: n in g ==> n in order
  {
    var search := new Search();
    var todo := g.Keys;
    order := [];
    while todo != {}
      invariant todo <= g.Keys && search.Valid(g) && search.visiting == {}
      invariant fresh(search)
      invariant forall n :: n in g && n !in todo ==> n in search.visited
      decreases todo
    {
      var name :| name in todo;
      todo := todo - {name};
      if name !in search.visited {
        var inner := search.HasCycle(name, g, [], Names(g));
        if inner {
          return true, [];
        }
      }
    }
    order := search.order;
    OrderRulesOutCycles(g, order);
    found := false;
  }

  // ---- Validate ----

  /** White space as strings.TrimSpace removes it. */
  predicate IsSpace(c: char) {
    c in ['\t', '\n', '\U{b}', '\U{c}', '\r', ' ', '\U{85}', '\U{a0}', '\U{1680}', '\U{2028}', '\U{2029}',
          '\U{202f}', '\U{205f}', '\U{3000}'] || '\U{2000}' <= c <= '\U{200a}'
  }

  predicate Blank(name: string) {
    forall i :: 0 <= i < |name| ==> IsSpace(name[i])
  }

  datatype Issue =
    | NoServices
    | EmptyName
    | DuplicateName(name: string)
    | UnknownDependency(name: string, dependency: string)
    | CircularDependency

  ghost predicate Named(list: seq<Service>) {
    && (forall i :: 0 <= i < |list| ==> !Blank(list[i].name))
    && (forall i, j :: 0 <= i < j < |list| ==> list[i].name != list[j].name)
  }

  ghost predicate Declared(list: seq<Service>) {
    forall i, k :: 0 <= i < |list| && 0 <= k < |list[i].dependencies| ==>
      exists j :: 0 <= j < |list| && list[j].name == list[i].dependencies[k]
  }

  /** The graph a list of distinctly named services denotes. */
  function GraphOf(list: seq<Service>): (g: Graph)
    ensures forall n :: n in g ==> exists j :: 0 <= j < |list| && list[j].name == n
  {
    if list == [] then map[]
    else
      var last := list[|list| - 1];
      GraphOf(list[..|list| - 1])[last.name := last]
  }

  lemma {:induction false} GraphOfLast(list: seq<Service>, i: nat)
    requires i < |list| && forall j :: i < j < |list| ==> list[j].name != list[i].name
    ensures list[i].name in GraphOf(list) && GraphOf(list)[list[i].name] == list[i]
  {
    if i < |list| - 1 {
      GraphOfLast(list[..|list| - 1], i);
    }
  }

  /** Every service can be started after the services it depends on. */
  ghost predicate Startable(g: Graph) {
    exists order :: StartOrder(g, order) && forall n :: n in g ==> n in order
  }

  /** The validator: names first, and only when nothing was found (there or by the
      port, replica, resource and volume checks, `others` issues in all) the graph.
      A list passes exactly when its services can be started in some order. */
  method Validate(list: seq<Service>, others: nat) returns (valid: bool, issues: seq<Issue>)
    ensures valid <==> list != [] && others == 0 && Named(list) && Declared(list) && Startable(GraphOf(list))
    ensures list != [] ==> (valid <==> issues == [] && others == 0)
    ensures CircularDependency in issues <==>
              list != [] && others == 0 && Named(list) && Circular(GraphOf(list))
  {
    if list == [] {
      return false, [NoServices];
    }
    var services;
    services, issues := CheckNames(list);
    if issues == [] && others == 0 {
      DeclaredInGraph(list);
      issues := CheckGraph(services);
    }
    valid := issues == [] && others == 0;
  }

  method CheckNames(list: seq<Service>) returns (services: Graph, issues: seq<Issue>)
    ensures issues == [] <==> Named(list)
    ensures issues == [] ==> services == GraphOf(list)
    ensures CircularDependency !in issues
  {
    issues := [];
    services := map[];
    var i := 0;
    while i < |list|
      invariant 0 <= i <= |list|
      invariant issues == [] <==> Named(list[..i])
      invariant issues == [] ==> services == GraphOf(list[..i])
      invariant CircularDependency !in issues
    {
      var s := list[i];
      OneMore(list, i);
      i := i + 1;
      if Blank(s.name) {
        issues := issues + [EmptyName];
        continue;
      }
      if s.name in services {
        issues := issues + [DuplicateName(s.name)];
      }
      services := services[s.name := s];
    }
    assert list[..i] == list;
  }

  /** Unknown dependencies, then cycles. */
  method CheckGraph(services: Graph) returns (issues: seq<Issue>)
    ensures issues == [] <==> AllDeclared(services, services.Keys) && Startable(services)
    ensures CircularDependency in issues <==> Circular(services)
  {
    issues := [];
    var todo := services.Keys;
    while todo != {}
      invariant todo <= services.Keys
      invariant CircularDependency !in issues
      invariant issues == [] <==> AllDeclared(services, services.Keys - todo)
      decreases todo
    {
      var name :| name in todo;
      todo := todo - {name};
      var missing := Unknown(services, name);
      assert services.Keys - todo == (services.Keys - todo - {name}) + {name};
      issues := issues + missing;
    }
    assert services.Keys - todo == services.Keys;
    var found := Cyclic(services);
    if found {
      issues := issues + [CircularDependency];
    }
  }

  method Cyclic(g: Graph) returns (found: bool)
    ensures found <==> Circular(g)
    ensures found <==> !Startable(g)
  {
    ghost var order;
    found, order := FindCycle(g);
    if found {
      NoOrder(g);
    }
  }

  ghost predicate AllDeclared(g: Graph, names: set<string>) {
    forall n :: n in names && n in g ==> forall d :: d in g[n].dependencies ==> d in g
  }

  /** The dependencies of one service that no service declares. */
  method Unknown(g: Graph, name: string) returns (issues: seq<Issue>)
    requires name in g
    ensures issues == [] <==> AllDeclared(g, {name})
    ensures CircularDependency !in issues
  {
    issues := [];
    var deps := g[name].dependencies;
    for k := 0 to |deps|
      invariant CircularDependency !in issues
      invariant issues == [] <==> forall j :: 0 <= j < k ==> deps[j] in g
    {
      if deps[k] !in g {
        issues := issues + [UnknownDependency(name, deps[k])];
      }
    }
  }

  lemma {:induction false} NamedSoFar(list: seq<Service>, s: Service)
    requires Named(list) && !Blank(s.name)
    ensures Named(list + [s]) <==> s.name !in GraphOf(list)
  {
    if i :| 0 <= i < |list| && list[i].name == s.name {
      GraphOfLast(list, i);
      var longer := list + [s];
      assert longer[i].name == longer[|list|].name;
    }
  }

  lemma {:induction false} OneMore(list: seq<Service>, i: nat)
    requires i < |list|
    ensures Named(list[..i + 1]) <==> Named(list[..i]) && !Blank(list[i].name) && list[i].name !in GraphOf(list[..i])
    ensures GraphOf(list[..i + 1]) == GraphOf(list[..i])[list[i].name := list[i]]
  {
    var prefix, longer := list[..i], list[..i + 1];
    assert longer[..i] == prefix && longer[i] == list[i] && longer == prefix + [list[i]];
    assert forall j :: 0 <= j < i ==> prefix[j] == longer[j];
    if Named(prefix) && !Blank(list[i].name) {
      NamedSoFar(prefix, list[i]);
    }
  }

  lemma {:induction false} DeclaredInGraph(list: seq<Service>)
    requires Named(list)
    ensures Declared(list) <==> AllDeclared(GraphOf(list), GraphOf(list).Keys)
  {
    var g := GraphOf(list);
    forall i | 0 <= i < |list|
      ensures list[i].name in g && g[list[i].name] == list[i]
    {
      GraphOfLast(list, i);
    }
    if AllDeclared(g, g.Keys) {
      forall i, k | 0 <= i < |list| && 0 <= k < |list[i].dependencies|
        ensures exists j :: 0 <= j < |list| && list[j].name == list[i].dependencies[k]
      {
        assert list[i].dependencies[k] in g[list[i].name].dependencies;
      }
    }
    if Declared(list) {
      forall n, d | n in g && d in g[n].dependencies
        ensures d in g
      {
        var i :| 0 <= i < |list| && list[i].name == n;
        var k :| 0 <= k < |list[i].dependencies| && list[i].dependencies[k] == d;
        var j :| 0 <= j < |list| && list[j].name == d;
      }
    }
  }

  lemma {:induction false} NoOrder(g: Graph)
    requires Circular(g)
    ensures !Startable(g)
  {
    forall order | StartOrder(g, order) && forall n :: n in g ==> n in order
      ensures false
    {
      OrderRulesOutCycles(g, order);
    }
  }
}
