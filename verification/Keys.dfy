/** The layout of the coordination keyspace. */
module Keys {

  datatype Builder = Builder(prefix: string, clusterId: string)

  function Join(parts: seq<string>): string {
    if parts == [] then "" else if |parts| == 1 then parts[0] else parts[0] + ":" + Join(parts[1..])
  }

  function Root(b: Builder, parts: seq<string>): string {
    Join([b.prefix, b.clusterId] + parts)
  }

  function NodeKey(b: Builder, nodeId: string): string { Root(b, ["node", nodeId]) }
  function NodePrefix(b: Builder): string { Root(b, ["node"]) + ":" }
  function MembersSet(b: Builder): string { Root(b, ["members"]) }
  function LeaderKey(b: Builder, scope: string): string { Root(b, ["leader", scope]) }
  function LockKey(b: Builder, resource: string): string { Root(b, ["lock", resource]) }

  function Stem(b: Builder): string {
    b.prefix + ":" + b.clusterId + ":"
  }

  lemma {:induction false} RootTwo(b: Builder, kind: string, id: string)
    ensures Root(b, [kind, id]) == Stem(b) + (kind + ":" + id)
    ensures Root(b, [kind]) == Stem(b) + kind
  {
    var four := [b.prefix, b.clusterId] + [kind, id];
    assert four == [b.prefix, b.clusterId, kind, id];
    assert four[1..] == [b.clusterId, kind, id] && four[1..][1..] == [kind, id] && [kind, id][1..] == [id];
    assert Join([kind, id]) == kind + ":" + id;
    assert Join([b.clusterId, kind, id]) == b.clusterId + ":" + (kind + ":" + id);
    assert Join(four) == b.prefix + ":" + Join(four[1..]);
    assert b.prefix + ":" + (b.clusterId + ":" + (kind + ":" + id)) == Stem(b) + (kind + ":" + id);
    var three := [b.prefix, b.clusterId] + [kind];
    assert three == [b.prefix, b.clusterId, kind];
    assert three[1..] == [b.clusterId, kind] && three[1..][1..] == [kind];
    assert Join([b.clusterId, kind]) == b.clusterId + ":" + kind;
    assert b.prefix + ":" + (b.clusterId + ":" + kind) == Stem(b) + kind;
  }

  lemma {:induction false} Cancel(a: string, x: string, y: string)
    requires a + x == a + y
    ensures x == y
  {
    assert x == (a + x)[|a|..] == (a + y)[|a|..] == y;
  }

  /** A colon-free kind and what follows it can be read back from the key. */
  lemma {:induction false} SplitAtColon(kind: string, id: string, kind': string, id': string)
    requires ':' !in kind && ':' !in kind' && kind + ":" + id == kind' + ":" + id'
    ensures kind == kind' && id == id'
  {
    var s := kind + ":" + id;
    assert s[|kind|] == ':' && s[|kind'|] == ':';
    assert kind == s[..|kind|] == kind';
    assert id == s[|kind| + 1..] == id';
  }

  /** Within one cluster, keys of different kinds or different names never meet. */
  lemma {:induction false} KeysDisjoint(b: Builder, kind: string, id: string, kind': string, id': string)
    requires ':' !in kind && ':' !in kind' && Root(b, [kind, id]) == Root(b, [kind', id'])
    ensures kind == kind' && id == id'
  {
    RootTwo(b, kind, id);
    RootTwo(b, kind', id');
    Cancel(Stem(b), kind + ":" + id, kind' + ":" + id');
    SplitAtColon(kind, id, kind', id');
  }

  /** A node scan meets every node record and neither the roster nor any other kind. */
  lemma {:induction false} NodeScanExact(b: Builder, kind: string, id: string)
    requires ':' !in kind
    ensures NodePrefix(b) <= Root(b, [kind, id]) <==> kind == "node"
    ensures !(NodePrefix(b) <= MembersSet(b))
  {
    RootTwo(b, kind, id);
    RootTwo(b, "node", "");
    RootTwo(b, "members", "");
    var p, k := NodePrefix(b), Root(b, [kind, id]);
    assert p == Stem(b) + "node:";
    if p <= k {
      var rest := k[|p|..];
      assert k == p + rest;
      assert p + rest == Stem(b) + ("node" + ":" + rest);
      Cancel(Stem(b), "node" + ":" + rest, kind + ":" + id);
      SplitAtColon("node", rest, kind, id);
    }
    if kind == "node" {
      assert k == p + id;
    }
    assert MembersSet(b)[|Stem(b)|] == 'm';
    assert p[|Stem(b)|] == 'n';
  }

  // ---- Two builders ----

  /** The second builder's keys all lie under one kind of the first. */
  predicate Under(b: Builder, kind: string, b': Builder) {
    Stem(b) + kind + ":" <= Stem(b')
  }

  lemma {:induction false} UnderCollides(b: Builder, kind: string, b': Builder, kind': string)
    requires Under(b, kind, b')
    ensures exists id, id' :: Root(b, [kind, id]) == Root(b', [kind', id'])
  {
    var p := Stem(b) + kind + ":";
    var id := Stem(b')[|p|..] + kind' + ":";
    RootTwo(b, kind, id);
    RootTwo(b', kind', "");
    assert Root(b, [kind, id]) == p + id == Stem(b') + kind' + ":";
    assert Root(b', [kind', ""]) == Stem(b') + kind' + ":";
  }

  lemma {:induction false} CollidesUnder(b: Builder, kind: string, id: string, b': Builder, kind': string, id': string)
    requires ':' !in kind && |Stem(b)| < |Stem(b')| && Root(b, [kind, id]) == Root(b', [kind', id'])
    ensures Under(b, kind, b')
  {
    RootTwo(b, kind, id);
    RootTwo(b', kind', id');
    var p, x, y := Stem(b) + kind + ":", Root(b, [kind, id]), Root(b', [kind', id']);
    assert p == x[..|p|] && Stem(b') == y[..|Stem(b')|];
    // The longer stem ends with a colon, which the kind has none of.
    assert x[|Stem(b')| - 1] == ':' by {
      assert Stem(b')[|Stem(b')| - 1] == ':';
    }
    assert forall i :: 0 <= i < |kind| ==> x[|Stem(b)| + i] == kind[i] && kind[i] in kind;
    assert |p| <= |Stem(b')|;
  }

  /** Keys of two kinds under builders with different stems can coincide exactly when one
      builder's keys all lie under the other's kind. */
  lemma {:induction false} BuildersCollide(b: Builder, kind: string, b': Builder, kind': string)
    requires ':' !in kind && ':' !in kind' && Stem(b) != Stem(b')
    ensures (exists id, id' :: Root(b, [kind, id]) == Root(b', [kind', id'])) <==>
              Under(b, kind, b') || Under(b', kind', b)
  {
    if Under(b, kind, b') {
      UnderCollides(b, kind, b', kind');
    }
    if Under(b', kind', b) {
      UnderCollides(b', kind', b, kind);
      var id', id :| Root(b', [kind', id']) == Root(b, [kind, id]);
      assert Root(b, [kind, id]) == Root(b', [kind', id']);
    }
    if id, id' :| Root(b, [kind, id]) == Root(b', [kind', id']) {
      if |Stem(b)| < |Stem(b')| {
        CollidesUnder(b, kind, id, b', kind', id');
      } else if |Stem(b')| < |Stem(b)| {
        CollidesUnder(b', kind', id', b, kind, id);
      } else {
        SameLength(b, kind, id, b', kind', id');
      }
    }
  }

  lemma {:induction false} SameLength(b: Builder, kind: string, id: string, b': Builder, kind': string, id': string)
    requires |Stem(b)| == |Stem(b')| && Root(b, [kind, id]) == Root(b', [kind', id'])
    ensures Stem(b) == Stem(b')
  {
    RootTwo(b, kind, id);
    RootTwo(b', kind', id');
    assert Stem(b) == Root(b, [kind, id])[..|Stem(b)|] && Stem(b') == Root(b', [kind', id'])[..|Stem(b')|];
  }

  /** Some keys of some colon-free kinds coincide exactly when one stem continues the other. */
  lemma {:induction false} StemsCollide(b: Builder, b': Builder)
    requires Stem(b) != Stem(b')
    ensures (exists kind, kind' :: Meet(b, kind, b', kind')) <==> Stem(b) <= Stem(b') || Stem(b') <= Stem(b)
  {
    if Stem(b) <= Stem(b') {
      var kind := KindUnder(b, b');
      BuildersCollide(b, kind, b', "");
      assert Meet(b, kind, b', "");
    }
    if Stem(b') <= Stem(b) {
      var kind' := KindUnder(b', b);
      BuildersCollide(b, "", b', kind');
      assert Meet(b, "", b', kind');
    }
    if kind, kind' :| Meet(b, kind, b', kind') {
      BuildersCollide(b, kind, b', kind');
      assert Under(b, kind, b') ==> Stem(b) == Stem(b')[..|Stem(b)|];
      assert Under(b', kind', b) ==> Stem(b') == Stem(b)[..|Stem(b')|];
    }
  }

  ghost predicate Meet(b: Builder, kind: string, b': Builder, kind': string) {
    ':' !in kind && ':' !in kind' && exists id, id' :: Root(b, [kind, id]) == Root(b', [kind', id'])
  }

  /** The part of a longer stem up to the next colon. */
  lemma {:induction false} KindUnder(b: Builder, b': Builder) returns (kind: string)
    requires Stem(b) <= Stem(b') && Stem(b) != Stem(b')
    ensures ':' !in kind && Under(b, kind, b')
  {
    var n, s := |Stem(b)|, Stem(b');
    var i := n;
    while s[i] != ':'
      invariant n <= i < |s|
      invariant ':' !in s[n..i]
      decreases |s| - i
    {
      assert s[|s| - 1] == ':';
      assert s[n..i + 1] == s[n..i] + [s[i]];
      i := i + 1;
    }
    kind := s[n..i];
    assert Stem(b) + kind + ":" == s[..i + 1];
  }

  /** Under one prefix, clusters whose ids have no colon never share a key. */
  lemma {:induction false} TenantsApart(prefix: string, c: string, kind: string, id: string, c': string,
                                        kind': string, id': string)
    requires ':' !in c && ':' !in c' && ':' !in kind && ':' !in kind'
    requires Root(Builder(prefix, c), [kind, id]) == Root(Builder(prefix, c'), [kind', id'])
    ensures c == c' && kind == kind' && id == id'
  {
    var b, b' := Builder(prefix, c), Builder(prefix, c');
    RootTwo(b, kind, id);
    RootTwo(b', kind', id');
    assert Root(b, [kind, id]) == (prefix + ":") + (c + ":" + (kind + ":" + id));
    assert Root(b', [kind', id']) == (prefix + ":") + (c' + ":" + (kind' + ":" + id'));
    Cancel(prefix + ":", c + ":" + (kind + ":" + id), c' + ":" + (kind' + ":" + id'));
    SplitAtColon(c, kind + ":" + id, c', kind' + ":" + id');
    SplitAtColon(kind, id, kind', id');
  }

  /** With a colon in a cluster id two clusters under one prefix can share keys. */
  lemma {:induction false} TenantsCollide(prefix: string, cluster: string, id: string)
    ensures NodeKey(Builder(prefix, cluster + ":lock"), id) == LockKey(Builder(prefix, cluster), "node:" + id)
  {
    RootTwo(Builder(prefix, cluster + ":lock"), "node", id);
    RootTwo(Builder(prefix, cluster), "lock", "node:" + id);
    assert prefix + ":" + (cluster + ":lock") + ":" + ("node" + ":" + id) ==
           prefix + ":" + cluster + ":" + ("lock" + ":" + ("node:" + id));
  }
}
